/**
The ring refines the reserve/commit/take queue, and the buffer really holds the
bytes of that queue: what the consumer reads is what the producers wrote.
*/
module RingRefinement {
  import opened PackedWords
  import opened RingMachine
  import opened RingInvariant
  import RingProducerSteps
  import RingConsumerSteps
  import Q = ReserveQueue

  function Items(log: seq<Record>): (items: seq<Q.Item>)
    ensures |items| == |log|
    ensures forall k | 0 <= k < |log| :: items[k] == Q.Item(log[k].owner, log[k].data, log[k].done)
  {
    seq(|log|, k requires 0 <= k < |log| => Q.Item(log[k].owner, log[k].data, log[k].done))
  }

  function Abs(s: State): Q.Queue {
    Q.Queue(Items(s.ring.log), s.ring.Released())
  }

  /* --------------------------- where a byte lives ------------------------- */

  // The buffer offset of stream position x, for the positions in use.
  function Where(g: Ring, x: nat): nat
    requires g.lag <= x
  {
    if x >= g.cur then x - g.cur else x - g.lag
  }

  // Distinct positions in use have distinct offsets, all inside the buffer,
  // and together with the space skipped at the end they never fill it.
  lemma PositionsApart(g: Ring, x: nat, y: nat)
    requires Geometry(g) && g.Released() <= x < y < g.Tip()
    ensures Where(g, x) < g.space && Where(g, y) < g.space && Where(g, x) != Where(g, y)
  {
  }

  // The buffer holds every byte that is acquired and not released.
  predicate StoredByte(g: Ring, r: Record, j: nat)
    requires j < |r.data|
  {
    g.Released() <= r.base + j ==> r.phys + j < |g.mem| && g.mem[r.phys + j] == r.data[j]
  }

  predicate Stored(g: Ring, r: Record) {
    forall j | 0 <= j < |r.data| :: StoredByte(g, r, j)
  }

  predicate Contents(g: Ring) {
    forall k | 0 <= k < |g.log| :: Stored(g, g.log[k])
  }

  lemma RecordPosition(g: Ring, k: nat, j: nat)
    requires Geometry(g) && k < |g.log| && j < g.log[k].len && g.Released() <= g.log[k].base + j
    ensures g.lag <= g.log[k].base + j < g.Tip()
    ensures g.log[k].phys + j == Where(g, g.log[k].base + j) < g.space
  {
    assert PlacedAt(g.log[k], g.cur, g.lag);
  }

  // Two bytes of the log in use do not share an offset.
  lemma BytesApart(g: Ring, k: nat, j: nat, k': nat, j': nat)
    requires Geometry(g) && k < |g.log| && k' < |g.log| && (k != k' || j != j')
    requires j < g.log[k].len && g.Released() <= g.log[k].base + j
    requires j' < g.log[k'].len && g.Released() <= g.log[k'].base + j'
    ensures g.log[k].phys + j != g.log[k'].phys + j'
  {
    RecordPosition(g, k, j);
    RecordPosition(g, k', j');
    if g.log[k].base + j < g.log[k'].base + j' {
      PositionsApart(g, g.log[k].base + j, g.log[k'].base + j');
    } else {
      PositionsApart(g, g.log[k'].base + j', g.log[k].base + j);
    }
  }

  /* ------------------------- steps keep the contents ---------------------- */

  lemma FillContents(g: Ring, k: nat, j: nat, v: Byte)
    requires Geometry(g) && Contents(g) && k < |g.log| && !g.log[k].done && j < |g.log[k].data|
    requires g.log[k].phys + j < |g.mem|
    ensures Contents(Filled(g, k, j, v))
  {
    var g' := Filled(g, k, j, v);
    assert g.log[k].done || PendingOK(g, g.log[k]);
    forall k' | 0 <= k' < |g'.log| ensures Stored(g', g'.log[k']) {
      var q, q' := g.log[k'], g'.log[k'];
      assert Stored(g, q);
      forall j' | 0 <= j' < |q'.data| ensures StoredByte(g', q', j') {
        assert StoredByte(g, q, j');
        if (k != k' || j != j') && g.Released() <= q.base + j' {
          BytesApart(g, k, j, k', j');
        }
      }
    }
  }

  lemma StoredKept(g: Ring, g': Ring, r: Record)
    requires Stored(g, r) && g'.mem == g.mem && g.Released() <= g'.Released()
    ensures Stored(g', r)
  {
    forall j | 0 <= j < |r.data| ensures StoredByte(g', r, j) {
      assert StoredByte(g, r, j);
    }
  }

  lemma ReservedContents(g: Ring, w: nat, p: Producer)
    requires RingProducerSteps.Swaps(g, w, p) && Contents(g)
    ensures Contents(Reserved(g, w, p))
  {
    var g' := Reserved(g, w, p);
    RingProducerSteps.ReservedGeometry(g, w, p);
    forall k | 0 <= k < |g'.log| ensures Stored(g', g'.log[k]) {
      if k < |g.log| {
        assert Stored(g, g.log[k]);
        StoredKept(g, g', g.log[k]);
      } else {
        ReservedStored(g, w, p);
      }
    }
  }

  lemma ReservedStored(g: Ring, w: nat, p: Producer)
    requires RingProducerSteps.Swaps(g, w, p) && Geometry(Reserved(g, w, p))
    ensures Stored(Reserved(g, w, p), Reserved(g, w, p).log[|g.log|])
  {
    var g' := Reserved(g, w, p);
    var r := g'.log[|g.log|];
    forall j | 0 <= j < |r.data| ensures StoredByte(g', r, j) {
      RecordPosition(g', |g.log|, j);
    }
  }

  // Steps that keep data and memory, and release nothing back.
  lemma SameContents(g: Ring, g': Ring)
    requires Contents(g) && g'.mem == g.mem && |g'.log| == |g.log| && g.Released() <= g'.Released()
    requires forall k | 0 <= k < |g.log| :: g'.log[k] == g.log[k].(done := g'.log[k].done)
    ensures Contents(g')
  {
    forall k | 0 <= k < |g'.log| ensures Stored(g', g'.log[k]) {
      var r, r' := g.log[k], g'.log[k];
      assert Stored(g, r) && r' == r.(done := r'.done);
      forall j | 0 <= j < |r'.data| ensures StoredByte(g', r', j) {
        assert StoredByte(g, r, j);
      }
    }
  }

  /* ---------------------- one step, seen by the queue --------------------- */

  function AbsOp(s: State, a: Action): Q.Op {
    if !Enabled(s, a) then Q.Stutter
    else
      match a
      case CasOk(w) =>
        var p := s.producers[w];
        Q.Reserve(w, Slice(s.ring.mem, if p.target.lock then 0 else p.word.off, p.len))
      case Fill(w, j, v) => Q.Write(s.producers[w].k, j, v)
      case Produce(w) => Q.Commit(s.producers[w].k)
      case Release(n) => Q.Take(n)
      case _ => Q.Stutter
  }

  // The step keeps the contents, and the queue can take the matching step.
  predicate Refines(s: State, a: Action)
    requires Enabled(s, a)
  {
    && Contents(Apply(s, a).ring)
    && Q.Allowed(Abs(s), AbsOp(s, a))
    && Abs(Apply(s, a)) == Q.Effect(Abs(s), AbsOp(s, a))
  }

  lemma CasOkRefines(s: State, a: Action)
    requires Inv(s) && Contents(s.ring) && FewWraps(s) && Enabled(s, a) && a.CasOk?
    ensures Refines(s, a)
  {
    hide Chain, Placed, Pending, Boundary, Contents, Locked, EndOK, ConsumerOK;
    var w, g, p := a.w, s.ring, s.producers[a.w];
    assert WorkerOK(g, w, p, s.seen[w], s.registered[w]);
    assert g.laps < ReadLap(p, g.laps) + WRAP_MODULUS;
    RingProducerSteps.CasSawCurrent(g, p.word, p.lap);
    ReservedRefines(g, w, p);
  }

  lemma ReservedRefines(g: Ring, w: nat, p: Producer)
    requires RingProducerSteps.Swaps(g, w, p) && Contents(g)
    ensures Contents(Reserved(g, w, p)) && Reserved(g, w, p).Released() == g.Released()
    ensures Items(Reserved(g, w, p).log)
         == Items(g.log) + [Q.Item(w, Slice(g.mem, if p.target.lock then 0 else p.word.off, p.len), false)]
  {
    hide Contents, Geometry;
    ReservedContents(g, w, p);
    ReservedItems(g, w, p);
  }

  lemma ReservedItems(g: Ring, w: nat, p: Producer)
    requires p.Swapping?
    ensures Items(Reserved(g, w, p).log)
         == Items(g.log) + [Q.Item(w, Slice(g.mem, if p.target.lock then 0 else p.word.off, p.len), false)]
  {
  }

  lemma FillRefines(s: State, a: Action)
    requires Inv(s) && Contents(s.ring) && Enabled(s, a) && a.Fill?
    ensures Refines(s, a)
  {
    hide Chain, Placed, Pending, Boundary, Contents, Locked, EndOK, ConsumerOK;
    var g, p := s.ring, s.producers[a.w];
    assert WorkerOK(g, a.w, p, s.seen[a.w], s.registered[a.w]);
    FillContents(g, p.k, a.j, a.v);
    FillItems(g, p.k, a.j, a.v);
  }

  lemma FillItems(g: Ring, k: nat, j: nat, v: Byte)
    requires k < |g.log| && j < |g.log[k].data| && g.log[k].phys + j < |g.mem|
    ensures Items(Filled(g, k, j, v).log)
         == Items(g.log)[k := Items(g.log)[k].(data := Items(g.log)[k].data[j := v])]
  {
  }

  lemma ProduceRefines(s: State, a: Action)
    requires Inv(s) && Contents(s.ring) && Enabled(s, a) && a.Produce?
    ensures Refines(s, a)
  {
    hide Chain, Placed, Pending, Boundary, Contents, Locked, EndOK, ConsumerOK;
    var g, p := s.ring, s.producers[a.w];
    assert WorkerOK(g, a.w, p, s.seen[a.w], s.registered[a.w]);
    SameContents(g, g.(log := g.log[p.k := g.log[p.k].(done := true)]));
    DoneItems(g.log, p.k);
  }

  lemma DoneItems(log: seq<Record>, k: nat)
    requires k < |log|
    ensures Items(log[k := log[k].(done := true)]) == Items(log)[k := Items(log)[k].(done := true)]
  {
  }

  /* ----------------------- what a grant contains -------------------------- */

  lemma {:induction false} PrefixLength(log: seq<Record>, tip: nat, k: nat)
    requires Chain(log, tip) && k <= |log|
    ensures |Q.Bytes(Items(log)[..k])| == if k < |log| then log[k].base else tip
  {
    var items := Items(log);
    if k > 0 {
      PrefixLength(log, tip, k - 1);
      assert k < |log| ==> Follows(log, k);
      assert items[..k][..k - 1] == items[..k - 1];
    }
  }

  // The stream byte at a position of record k.
  lemma ByteAt(log: seq<Record>, tip: nat, k: nat, j: nat)
    requires Chain(log, tip) && k < |log| && j < log[k].len
    ensures log[k].base + j < |Q.Bytes(Items(log))|
    ensures Q.Bytes(Items(log))[log[k].base + j] == log[k].data[j]
  {
    var items := Items(log);
    PrefixLength(log, tip, k);
    Q.ItemBytes(items, k);
    assert Q.Bytes(items)[log[k].base..][..|items[k].data|][j] == Q.Bytes(items)[log[k].base + j];
  }

  lemma {:induction false} RecordOf(log: seq<Record>, tip: nat, x: nat, n: nat) returns (k: nat)
    requires Chain(log, tip) && n <= |log|
    requires x < if n < |log| then log[n].base else tip
    ensures k < n && log[k].base <= x < log[k].Limit()
  {
    assert 0 < n < |log| ==> Follows(log, n);
    if log[n - 1].base <= x {
      k := n - 1;
    } else {
      k := RecordOf(log, tip, x, n - 1);
    }
  }

  // A grant never reaches past the first range that is not produced.
  lemma GrantDeliverable(g: Ring, n: nat)
    requires Chain(g.log, g.Tip()) && Hands(g) && Granted(g, n)
    ensures g.Released() + n <= |Q.Deliverable(Items(g.log))|
    ensures Q.Deliverable(Items(g.log)) <= Q.Bytes(Items(g.log))
  {
    var d := Q.DoneCount(Items(g.log));
    PrefixLength(g.log, g.Tip(), d);
    Q.BytesPrefix(Items(g.log), d);
  }

  lemma GrantByte(g: Ring, n: nat, i: nat)
    requires Geometry(g) && Contents(g) && Granted(g, n) && i < n
    ensures g.written + i < |g.mem| && g.Released() + i < |Q.Bytes(Items(g.log))|
    ensures g.mem[g.written + i] == Q.Bytes(Items(g.log))[g.Released() + i]
  {
    var k := RecordOf(g.log, g.Tip(), g.Released() + i, |g.log|);
    GrantByteOf(g, n, i, k);
    ByteAt(g.log, g.Tip(), k, g.Released() + i - g.log[k].base);
  }

  lemma GrantByteOf(g: Ring, n: nat, i: nat, k: nat)
    requires Geometry(g) && Contents(g) && Granted(g, n) && i < n
    requires k < |g.log| && g.log[k].base <= g.Released() + i < g.log[k].Limit()
    ensures g.written + i < |g.mem| && g.mem[g.written + i] == g.log[k].data[g.Released() + i - g.log[k].base]
  {
    var j := g.Released() + i - g.log[k].base;
    assert Stored(g, g.log[k]) && StoredByte(g, g.log[k], j);
    RecordPosition(g, k, j);
  }

  predicate SameByte(s: seq<Byte>, from: nat, t: seq<Byte>, from': nat, i: nat) {
    from + i < |s| && from' + i < |t| && s[from + i] == t[from' + i]
  }

  lemma GrantBytes(g: Ring, n: nat)
    requires Geometry(g) && Contents(g) && Granted(g, n)
    ensures forall i: nat | i < n :: SameByte(g.mem, g.written, Q.Bytes(Items(g.log)), g.Released(), i)
  {
    forall i: nat | i < n ensures SameByte(g.mem, g.written, Q.Bytes(Items(g.log)), g.Released(), i) {
      GrantByte(g, n, i);
    }
  }

  lemma SlicesAgree(s: seq<Byte>, from: nat, t: seq<Byte>, from': nat, n: nat, u: seq<Byte>)
    requires forall i: nat | i < n :: SameByte(s, from, t, from', i)
    requires from + n <= |s| && from' + n <= |u| && u <= t
    ensures s[from..from + n] == u[from'..from' + n]
  {
    var a, b := s[from..from + n], u[from'..from' + n];
    forall i: nat | i < n ensures a[i] == b[i] {
      assert SameByte(s, from, t, from', i);
    }
  }

  // The granted bytes sit at 'written', contiguous, as their producers left them.
  lemma GrantContents(g: Ring, n: nat)
    requires Geometry(g) && Contents(g) && Granted(g, n)
    ensures g.written + n <= |g.mem| && g.Released() + n <= |Q.Deliverable(Items(g.log))|
    ensures g.mem[g.written..g.written + n] == Q.Deliverable(Items(g.log))[g.Released()..g.Released() + n]
  {
    hide Chain, Placed, Pending, Hands, Shape, Contents, Granted, Q.Bytes;
    GrantFits(g, n);
    GrantDeliverable(g, n);
    GrantBytes(g, n);
    SlicesAgree(g.mem, g.written, Q.Bytes(Items(g.log)), g.Released(), n, Q.Deliverable(Items(g.log)));
  }

  lemma GrantFits(g: Ring, n: nat)
    requires Geometry(g) && Granted(g, n)
    ensures g.written + n <= g.space == |g.mem|
  {
  }

  lemma ReleaseContents(g: Ring, n: nat)
    requires Geometry(g) && Contents(g) && Granted(g, n)
    ensures Contents(Freed(g, n)) && Freed(g, n).Released() == g.Released() + n
  {
    RingConsumerSteps.FreedPosition(g, n);
    SameContents(g, Freed(g, n));
  }

  lemma ReleasedRefines(g: Ring, avail: nat, n: nat)
    requires Geometry(g) && Contents(g) && Granted(g, avail) && n <= avail
    ensures Contents(Freed(g, n)) && Freed(g, n).Released() == g.Released() + n
    ensures g.Released() + n <= |Q.Deliverable(Items(g.log))|
  {
    GrantedMore(g, avail, n);
    GrantDeliverable(g, n);
    ReleaseContents(g, n);
  }

  lemma ReleaseRefines(s: State, a: Action)
    requires Geometry(s.ring) && Contents(s.ring) && Enabled(s, a) && a.Release? && Granted(s.ring, s.consumer.avail)
    ensures Refines(s, a)
  {
    hide Geometry, Contents, Granted, Q.Deliverable;
    ReleasedRefines(s.ring, s.consumer.avail, a.n);
    assert Items(Freed(s.ring, a.n).log) == Items(s.ring.log);
  }

  lemma GrantedMore(g: Ring, n: nat, m: nat)
    requires Granted(g, n) && m <= n
    ensures Granted(g, m)
  {
  }
}
