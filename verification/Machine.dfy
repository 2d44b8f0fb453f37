/**
The ring buffer of `src/ringbuf.c` as a transition system.

Every atomic load, store or compare-and-swap of the source is one step, and any
producer or the consumer may take the next step; memory is sequentially
consistent.  A packed 64-bit word is shown here by its three fields (see
`PackedWords` for the bit layout).

Some components of the state are history: the program never reads them.  The
history describes the ring as one endless stream of bytes, each byte having a
stream position:
  - `log`   lists every range ever acquired, in the order of the successful CAS;
  - `cur`   is the stream position of offset 0 for the producers;
  - `lag`   is the stream position of offset 0 for the consumer: it equals
            `cur`, or is smaller while the consumer is one lap behind;
  - `laps`  is the number of wrap-arounds, without the 31-bit truncation;
  - `locker` is the worker that set the lock bit of `next`, while it is set.
*/
module RingMachine {
  import opened PackedWords

  // The 'seen' word of a worker: an offset or RBUF_OFF_MAX, and the lock bit.
  datatype Seen = Seen(off: nat, lock: bool)

  const CLEAR := Seen(OFF_MAX, false)

  // A range acquired by a successful CAS.  `base` is its stream position, `phys`
  // its offset in the buffer, `seen` the value of 'next' its owner observed.
  datatype Record = Record(owner: nat, base: nat, len: nat, phys: nat, seen: nat, done: bool, data: seq<Byte>)
  {
    function Limit(): nat { base + len }
    predicate Wrapped() { seen != phys }
  }

  // Program counter and live local variables of a worker in ringbuf_register,
  // ringbuf_acquire and ringbuf_produce.  History: `pristine`, `lap`, and `k`, the
  // index in the log of the acquired range.
  datatype Producer =
    | Unregistered(pristine: bool)                               // pristine: never registered
    | Registering
    | Idle
    | Loading(len: nat)                                         // top of the loop
    | Publishing(len: nat, word: Word, lap: nat)                // 'next' was read
    | Deciding(len: nat, word: Word, lap: nat)                  // 'seen' was stored
    | Refusing                                                  // about to return -1
    | Swapping(len: nat, word: Word, lap: nat, target: Word)    // about to CAS
    | Clearing(k: nat, prev: nat, target: Word)                  // CAS succeeded
    | StoringEnd(k: nat, prev: nat, target: Word)
    | Unlocking(k: nat, target: Word)
    | Holding(k: nat)                                           // acquire returned

  // What ringbuf_consume knows after reading 'next': `tip` and `lapped` are
  // history (the stream position that 'next' stood for, and whether the
  // consumer was a lap behind at that moment); so is `retried`.
  datatype View = View(next: nat, tip: nat, lapped: bool, retried: bool)

  datatype Consumer =
    | Ready(avail: nat)                               // outside consume
    | Reading(retried: bool)                          // about to read 'next'
    | Checking(view: View, i: nat, ready: nat)        // about to read `registered`
    | Observing(view: View, i: nat, ready: nat)       // about to read `seen_off`
    | Limiting(view: View, ready: nat)                // wrapped: about to read 'end'
    | TestingEnd(retried: bool)
    | ClearingEnd(retried: bool)
    | Resetting(retried: bool)

  // The fields of ringbuf_t, the buffer itself, and the history.
  datatype Ring = Ring(
    space: nat, next: Word, end: nat, written: nat, mem: seq<Byte>,
    laps: nat, cur: nat, lag: nat, locker: nat, log: seq<Record>)
  {
    function Tip(): nat { cur + next.off }
    function Released(): nat { lag + written }
    predicate Behind() { lag < cur }
    // The consumer must follow a producer that left space unused at the end.
    predicate HasCut() { lag < cur && cur - lag < space }
  }

  // The ring, the two fields of every worker, and where each thread is.
  datatype State = State(
    ring: Ring, seen: seq<Seen>, registered: seq<bool>, producers: seq<Producer>, consumer: Consumer)

  function Min(x: nat, y: nat): nat { if x < y then x else y }

  /* ------------------------------ decisions ------------------------------- */

  datatype Decision = Wait | Move(target: Word)

  // One iteration of the loop in ringbuf_acquire, from the two values it read.
  function Decide(space: nat, word: Word, len: nat, written: nat): Decision {
    var target := word.off + len;
    if word.off < written && target >= written then
      Wait
    else if target >= space then
      var exceed := target > space;
      var off := if exceed then len else 0;
      if off >= written then Wait
      else Move(Word(off, (word.wrap + 1) % WRAP_MODULUS, exceed))
    else
      Move(Word(target, word.wrap, false))
  }

  // The update of 'ready' for one observed worker.
  function Observe(written: nat, seenOff: nat, ready: nat): nat {
    if seenOff >= written then Min(seenOff, ready) else ready
  }

  // The update of 'written' in ringbuf_release.
  function Advance(space: nat, written: nat, n: nat): nat {
    if written + n == space then 0 else written + n
  }

  /* -------------------------------- steps --------------------------------- */

  datatype Action =
    | StoreClear(w: nat)
    | StoreRegistered(w: nat)
    | Unregister(w: nat)
    | CallAcquire(w: nat, len: nat)
    | LoadNext(w: nat)
    | StoreSeen(w: nat)
    | LoadWritten(w: nat)
    | Refuse(w: nat)
    | CasFail(w: nat)
    | CasOk(w: nat)
    | ClearSeen(w: nat)
    | StoreEnd(w: nat)
    | Unlock(w: nat)
    | Fill(w: nat, j: nat, v: Byte)
    | Produce(w: nat)
    | CallConsume
    | ReadNext
    | CheckWorker
    | ObserveWorker
    | EndScan
    | ReadEnd
    | TestEnd
    | ClearEnd
    | ResetWritten
    | Release(n: nat)

  predicate ByWorker(a: Action) {
    !(a.CallConsume? || a.ReadNext? || a.CheckWorker? || a.ObserveWorker? || a.EndScan?
      || a.ReadEnd? || a.TestEnd? || a.ClearEnd? || a.ResetWritten? || a.Release?)
  }

  predicate Sized(s: State) {
    |s.seen| == |s.registered| == |s.producers|
  }

  predicate Enabled(s: State, a: Action) {
    && Sized(s)
    && (ByWorker(a) ==> a.w < |s.producers| && WorkerEnabled(s, a, s.producers[a.w]))
    && (!ByWorker(a) ==> ConsumerEnabled(s, a))
  }

  predicate WorkerEnabled(s: State, a: Action, p: Producer)
    requires Sized(s) && ByWorker(a)
  {
    match a
    case StoreClear(w) => p.Unregistered?
    case StoreRegistered(w) => p.Registering?
    case Unregister(w) => p.Idle?
    case CallAcquire(w, len) => p.Idle? && 0 < len <= s.ring.space
    case LoadNext(w) => p.Loading? && !s.ring.next.lock          // else it spins
    case StoreSeen(w) => p.Publishing?
    case LoadWritten(w) => p.Deciding?
    case Refuse(w) => p.Refusing?
    case CasFail(w) => p.Swapping?                          // also spuriously
    case CasOk(w) => p.Swapping? && s.ring.next == p.word
    case ClearSeen(w) => p.Clearing?
    case StoreEnd(w) => p.StoringEnd?
    case Unlock(w) => p.Unlocking?
    case Fill(w, j, v) => p.Holding? && p.k < |s.ring.log| && j < |s.ring.log[p.k].data| && s.ring.log[p.k].phys + j < |s.ring.mem|
    case Produce(w) => p.Holding? && p.k < |s.ring.log|
  }

  predicate ConsumerEnabled(s: State, a: Action)
    requires Sized(s) && !ByWorker(a)
  {
    match a
    case CallConsume => s.consumer.Ready?
    case ReadNext => s.consumer.Reading? && !s.ring.next.lock    // else it spins
    case CheckWorker => s.consumer.Checking? && s.consumer.i < |s.producers|
    case ObserveWorker => s.consumer.Observing? && s.consumer.i < |s.producers| && !s.seen[s.consumer.i].lock
    case EndScan => s.consumer.Checking? && s.consumer.i >= |s.producers| && EndScanDefined(s)
    case ReadEnd => s.consumer.Limiting? && s.ring.written <= Min(s.consumer.ready, Min(s.ring.space, s.ring.end))
    case TestEnd => s.consumer.TestingEnd?
    case ClearEnd => s.consumer.ClearingEnd?
    case ResetWritten => s.consumer.Resetting?
    case Release(n) => s.consumer.Ready? && n <= s.consumer.avail
  }

  // `ready - written` does not underflow (the assertion before the return).
  predicate EndScanDefined(s: State)
    requires s.consumer.Checking?
  {
    s.consumer.view.next < s.ring.written || s.ring.written <= Min(s.consumer.ready, s.consumer.view.next)
  }

  // Worker w moves to p; nothing else changes.
  function At(s: State, w: nat, p: Producer): State
    requires w < |s.producers|
  {
    s.(producers := s.producers[w := p])
  }

  // Worker w stores x in its 'seen' word and moves to p.
  function Put(s: State, w: nat, x: Seen, p: Producer): State
    requires w < |s.producers| && w < |s.seen|
  {
    s.(seen := s.seen[w := x], producers := s.producers[w := p])
  }

  function Apply(s: State, a: Action): State
    requires Enabled(s, a)
  {
    if ByWorker(a) then ApplyWorker(s, a, s.producers[a.w]) else ApplyConsumer(s, a)
  }

  function ApplyWorker(s: State, a: Action, p: Producer): State
    requires Sized(s) && ByWorker(a) && a.w < |s.producers| && p == s.producers[a.w] && WorkerEnabled(s, a, p)
  {
    match a
    case StoreClear(w) => Put(s, w, CLEAR, Registering)
    case StoreRegistered(w) => At(s, w, Idle).(registered := s.registered[w := true])
    case Unregister(w) => At(s, w, Unregistered(false)).(registered := s.registered[w := false])
    case CallAcquire(w, len) => At(s, w, Loading(len))
    case LoadNext(w) => At(s, w, Publishing(p.len, s.ring.next, s.ring.laps))
    case StoreSeen(w) => Put(s, w, Seen(p.word.off, true), Deciding(p.len, p.word, p.lap))
    case LoadWritten(w) =>
      At(s, w, match Decide(s.ring.space, p.word, p.len, s.ring.written)
               case Wait => Refusing
               case Move(target) => Swapping(p.len, p.word, p.lap, target))
    case Refuse(w) => Put(s, w, CLEAR, Idle)
    case CasFail(w) => At(s, w, Loading(p.len))
    case CasOk(w) => At(s, w, Clearing(|s.ring.log|, p.word.off, p.target)).(ring := Reserved(s.ring, w, p))
    case ClearSeen(w) =>
      Put(s, w, s.seen[w].(lock := false),
          if p.target.lock then StoringEnd(p.k, p.prev, p.target) else Holding(p.k))
    case StoreEnd(w) => At(s, w, Unlocking(p.k, p.target)).(ring := s.ring.(end := p.prev))
    case Unlock(w) => At(s, w, Holding(p.k)).(ring := s.ring.(next := p.target.(lock := false)))
    case Fill(w, j, v) =>
      s.(ring := Filled(s.ring, p.k, j, v))
    case Produce(w) =>
      Put(s, w, CLEAR, Idle).(ring := s.ring.(log := s.ring.log[p.k := s.ring.log[p.k].(done := true)]))
  }

  // The ring after byte j of range k was written, in the buffer and in the log.
  function Filled(g: Ring, k: nat, j: nat, v: Byte): Ring
    requires k < |g.log| && j < |g.log[k].data| && g.log[k].phys + j < |g.mem|
  {
    var r := g.log[k];
    g.(mem := g.mem[r.phys + j := v], log := g.log[k := r.(data := r.data[j := v])])
  }

  // The ring after the successful CAS of worker w.
  function Reserved(g: Ring, w: nat, p: Producer): Ring
    requires p.Swapping?
  {
    var exceed := p.target.lock;
    var wraps := p.word.off + p.len >= g.space;
    var phys := if exceed then 0 else p.word.off;
    var r := Record(w, g.Tip(), p.len, phys, p.word.off, false, Slice(g.mem, phys, p.len));
    g.(next := p.target,
       laps := if wraps then g.laps + 1 else g.laps,
       cur := if exceed then g.Tip() else if wraps then g.Tip() + p.len else g.cur,
       locker := if exceed then w else g.locker,
       log := g.log + [r])
  }

  // What the memory holds in a range before its owner writes to it.
  function Slice(mem: seq<Byte>, from: nat, len: nat): seq<Byte> {
    seq(len, j requires 0 <= j < len => if from + j < |mem| then mem[from + j] else 0)
  }

  // The ring after the consumer released n bytes.
  function Freed(g: Ring, n: nat): Ring {
    g.(written := Advance(g.space, g.written, n), lag := if g.written + n == g.space then g.cur else g.lag)
  }

  function ApplyConsumer(s: State, a: Action): State
    requires Sized(s) && !ByWorker(a) && ConsumerEnabled(s, a)
  {
    var c := s.consumer;
    match a
    case CallConsume => s.(consumer := Reading(false))
    case ReadNext =>
      s.(consumer := if s.ring.written == s.ring.next.off then Ready(0)
                     else Checking(View(s.ring.next.off, s.ring.Tip(), s.ring.Behind(), c.retried), 0, OFF_MAX))
    case CheckWorker =>
      s.(consumer := if s.registered[c.i] then Observing(c.view, c.i, c.ready)
                     else Checking(c.view, c.i + 1, c.ready))
    case ObserveWorker =>
      s.(consumer := Checking(c.view, c.i + 1, Observe(s.ring.written, s.seen[c.i].off, c.ready)))
    case EndScan =>
      s.(consumer := if c.view.next < s.ring.written then Limiting(c.view, c.ready)
                     else Ready(Min(c.ready, c.view.next) - s.ring.written))
    case ReadEnd =>
      var end := Min(s.ring.space, s.ring.end);
      s.(consumer := if c.ready == OFF_MAX && s.ring.written == end then TestingEnd(c.view.retried)
                     else Ready(Min(c.ready, end) - s.ring.written))
    case TestEnd =>
      s.(consumer := if s.ring.end != OFF_MAX then ClearingEnd(c.retried) else Resetting(c.retried))
    case ClearEnd => s.(ring := s.ring.(end := OFF_MAX), consumer := Resetting(c.retried))
    case ResetWritten => s.(ring := s.ring.(written := 0, lag := s.ring.cur), consumer := Reading(true))
    case Release(n) =>
      s.(ring := Freed(s.ring, n), consumer := Ready(c.avail - n))
  }

  /* --------------------------------- runs --------------------------------- */

  // ringbuf_setup succeeded: the structure is zeroed, then filled in.
  predicate Init(s: State) {
    && 0 < s.ring.space < OFF_MASK
    && Sized(s) && |s.ring.mem| == s.ring.space
    && s.ring.next == Word(0, 0, false) && s.ring.end == OFF_MAX && s.ring.written == 0
    && (forall w | 0 <= w < |s.producers| ::
          s.seen[w] == Seen(0, false) && !s.registered[w] && s.producers[w] == Unregistered(true))
    && s.consumer == Ready(0)
    && s.ring.laps == s.ring.cur == s.ring.lag == 0 && s.ring.log == []
  }

  // The lap at which a worker read the value of 'next' it will compare with.
  function ReadLap(p: Producer, laps: nat): nat {
    if p.Publishing? || p.Deciding? || p.Swapping? then p.lap else laps
  }

  // Fewer than 2^31 wrap-arounds since any worker in the loop read 'next'.
  predicate FewWraps(s: State) {
    forall w | 0 <= w < |s.producers| :: s.ring.laps < ReadLap(s.producers[w], s.ring.laps) + WRAP_MODULUS
  }

  predicate Step(s: State, a: Action, s': State) {
    FewWraps(s) && Enabled(s, a) && s' == Apply(s, a)
  }

  // Any interleaving: `run` visits the states, `acts` are the steps between them.
  predicate IsRun(run: seq<State>, acts: seq<Action>) {
    && |run| == |acts| + 1
    && Init(run[0])
    && (forall i | 0 <= i < |acts| :: Step(run[i], acts[i], run[i + 1]))
  }
}
