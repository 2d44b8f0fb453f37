/**
The playback client of `src/as_aud_speak.c`: consume, walk over the messages in
the range, release.
*/
module Speaker {
  import opened PackedWords
  import opened RingMachine
  import opened RingInvariant
  import opened RingRefinement
  import opened RingRuns
  import opened RingOperations
  import opened RingBuffers
  import opened Frames
  import opened RingSequential
  import RingConsumerSteps
  import Q = ReserveQueue

  /* ------------------------ from the ring to the queue -------------------- */

  // Record boundaries of the log are item boundaries of the queue.
  lemma BoundaryAligned(log: seq<Record>, tip: nat, x: nat)
    requires Chain(log, tip) && Boundary(log, tip, x)
    ensures Aligned(Items(log), x)
  {
    var k := |log|;
    if x != tip {
      k :| 0 <= k < |log| && log[k].base == x;
    }
    PrefixLength(log, tip, k);
    assert StartsAt(Items(log), k, x);
  }

  lemma LogSubstantial(log: seq<Record>, tip: nat)
    requires Chain(log, tip)
    ensures Substantial(Items(log))
  {
  }

  // The client releases all that consume returned, and producers produce whole
  // messages only.
  predicate PlaybackRun(run: seq<State>, acts: seq<Action>) {
    && IsRun(run, acts)
    && (forall i | 0 <= i < |acts| :: acts[i].Release? ==> run[i].consumer == Ready(acts[i].n))
    && (forall i | 0 <= i < |run| :: Framed(Items(run[i].ring.log)))
  }

  // Every step of the machine is possible in such a run, but for a release of
  // less than consume returned and a produce of something else than a message.
  lemma {:induction false} PlaybackGoesOn(run: seq<State>, acts: seq<Action>, a: Action)
    requires PlaybackRun(run, acts) && FewWraps(run[|acts|]) && Enabled(run[|acts|], a)
    requires a.Release? ==> run[|acts|].consumer == Ready(a.n)
    requires a.Produce? ==>
               var s := run[|acts|]; IsFrame(s.ring.log[s.producers[a.w].k].data)
    ensures PlaybackRun(run + [Apply(run[|acts|], a)], acts + [a])
  {
    hide FewWraps, Enabled, Apply, Init, Framed;
    var s := run[|acts|];
    OneMoreStep(run, acts, a);
    ReachableGood(run, acts, |acts|);
    StaysFramed(s, a);
  }

  lemma StaysFramed(s: State, a: Action)
    requires Inv(s) && FewWraps(s) && Enabled(s, a) && Framed(Items(s.ring.log))
    requires a.Produce? ==> IsFrame(s.ring.log[s.producers[a.w].k].data)
    ensures Framed(Items(Apply(s, a).ring.log))
  {
    hide Geometry, Owners, ConsumerOK, EndOK, Locked, IsFrame;
    if ByWorker(a) {
      assert WorkerOK(s.ring, a.w, s.producers[a.w], s.seen[a.w], s.registered[a.w]);
    }
    var log' := Apply(s, a).ring.log;
    forall k | 0 <= k < |log'| && log'[k].done ensures IsFrame(log'[k].data) {
      assert k < |s.ring.log|;
      assert Items(s.ring.log)[k].done || (a.Produce? && s.producers[a.w].k == k);
    }
  }

  // What the walks of the client meet in the first m steps.
  function Played(run: seq<State>, acts: seq<Action>, m: nat): seq<Message>
    requires m <= |acts| && |run| == |acts| + 1
  {
    if m == 0 then [] else Played(run, acts, m - 1) + Walk(Read(run[m - 1], acts[m - 1])).messages
  }

  lemma ReleaseAligned(s: State, a: Action)
    requires Good(s) && Enabled(s, a) && a.Release? && s.consumer == Ready(a.n)
    ensures Aligned(Abs(s).items, Abs(s).taken + a.n)
  {
    hide Contents, Placed, Pending, Workers, Owners, Aligned, Granted;
    BoundaryAligned(s.ring.log, s.ring.Tip(), s.ring.Released() + a.n);
  }

  lemma ReleaseTakes(s: State, a: Action)
    requires Enabled(s, a) && a.Release?
    ensures AbsOp(s, a) == Q.Take(a.n)
  {
  }

  lemma TakeAligned(run: seq<State>, acts: seq<Action>, i: nat)
    requires PlaybackRun(run, acts) && i < |acts| && AbsOp(run[i], acts[i]).Take?
    ensures Aligned(Abs(run[i]).items, Abs(run[i]).taken + AbsOp(run[i], acts[i]).n)
  {
    hide Good, Enabled, Apply, FewWraps, Aligned, Framed;
    ReachableGood(run, acts, i);
    assert Step(run[i], acts[i], run[i + 1]);
    if !acts[i].Release? {
      OnlyReleaseTakes(run[i], acts[i]);
    }
    ReleaseAligned(run[i], acts[i]);
    ReleaseTakes(run[i], acts[i]);
  }

  lemma StateSubstantial(run: seq<State>, acts: seq<Action>, i: nat)
    requires IsRun(run, acts) && i < |run|
    ensures Substantial(Items(run[i].ring.log))
  {
    ReachableGood(run, acts, i);
    LogSubstantial(run[i].ring.log, run[i].ring.Tip());
  }

  lemma PlaybackDisciplined(run: seq<State>, acts: seq<Action>)
    requires PlaybackRun(run, acts)
    ensures Disciplined(Queues(run), Ops(run, acts))
  {
    RunRefines(run, acts);
    var qs, ops := Queues(run), Ops(run, acts);
    forall i | 0 <= i < |ops| && ops[i].Take? ensures Aligned(qs[i].items, qs[i].taken + ops[i].n) {
      TakeAligned(run, acts, i);
    }
    forall i | 0 <= i < |qs| ensures Framed(qs[i].items) && Substantial(qs[i].items) {
      StateSubstantial(run, acts, i);
    }
  }

  lemma {:induction false} PlayedIsVisited(run: seq<State>, acts: seq<Action>, m: nat)
    requires IsRun(run, acts) && m <= |acts| && Q.IsRun(Queues(run), Ops(run, acts))
    ensures Played(run, acts, m) == Visited(Queues(run), Ops(run, acts), m)
  {
    hide Inv, Contents, Enabled, Apply, FewWraps, Init, Walk;
    if m > 0 {
      PlayedIsVisited(run, acts, m - 1);
      ReachableGood(run, acts, m - 1);
      assert Step(run[m - 1], acts[m - 1], run[m]);
      ReadIsGiven(run[m - 1], acts[m - 1]);
    }
  }

  // In every interleaving the client plays every message once, in the order in
  // which the ranges were acquired: those of the first k ranges, all produced.
  lemma {:induction false} PlaysInOrder(run: seq<State>, acts: seq<Action>, m: nat) returns (k: nat)
    requires PlaybackRun(run, acts) && m <= |acts|
    ensures var items := Items(run[m].ring.log);
            && k <= Q.DoneCount(items) && StartsAt(items, k, run[m].ring.Released())
            && AllFrames(items[..k]) && Played(run, acts, m) == Messages(items[..k])
  {
    PlaybackDisciplined(run, acts);
    k := EveryMessageOnce(Queues(run), Ops(run, acts), m);
    PlayedIsVisited(run, acts, m);
  }

  /* ----------------------------- the loop itself -------------------------- */

  // The inner loop of as_audio_PvSpeakThr: the messages it plays.
  method WalkRange(buf: array<Byte>, start: nat, len: nat) returns (played: seq<Message>, off: nat)
    requires start + len <= buf.Length && Walk(buf[start..start + len]).exact
    ensures played == Walk(buf[start..start + len]).messages && off == start + len
  {
    hide Walk, Decode32;
    WalkEmpty();
    var vlen := 0;
    off := start;
    ghost var limit := start + len;
    played := [];
    while vlen < len
      invariant vlen <= len && off == start + vlen
      invariant Walk(buf[off..limit]).exact
      invariant played + Walk(buf[off..limit]).messages == Walk(buf[start..limit]).messages
    {
      WalkOn(buf[..], off, limit);
      var kind := Decode32(buf[off..off + 4]);
      var n := Decode32(buf[off + 4..off + 8]);
      played := played + [Message(kind, buf[off + HEADER..off + HEADER + n])];
      off, vlen := off + HEADER + n, vlen + HEADER + n;
    }
    assert vlen == len && buf[off..limit] == [];
  }

  lemma WalkEmpty()
    ensures Walk([]) == Walked([], true)
  {
  }

  lemma HeaderWords(s: seq<Byte>)
    requires |s| > 0 && Walk(s).exact
    ensures |s| >= HEADER && |s| >= HEADER + Length(s)
  {
    hide Decode32;
  }

  // The first message of an exact walk, and the rest of the walk.
  lemma {:induction false} NextMessage(s: seq<Byte>, kind: nat, n: nat)
    requires |s| > 0 && Walk(s).exact
    requires |s| >= HEADER ==> kind == Kind(s) && n == Length(s)
    ensures |s| >= HEADER + n
    ensures Walk(s) == Walked([Message(kind, s[HEADER..HEADER + n])] + Walk(s[HEADER + n..]).messages, true)
    ensures Walk(s[HEADER + n..]).exact
  {
    hide Walk, Kind, Length;
    HeaderWords(s);
    FirstFrame(s);
    var first, rest := s[..HEADER + n], s[HEADER + n..];
    assert s == first + rest;
    WalkPastFrame(first, rest);
  }

  // One message of an exact walk over a part of the buffer.
  lemma WalkOn(s: seq<Byte>, off: nat, limit: nat)
    requires off < limit <= |s| && Walk(s[off..limit]).exact
    ensures off + HEADER <= limit
    ensures var kind, n := Decode32(s[off..off + 4]), Decode32(s[off + 4..off + 8]);
            && off + HEADER + n <= limit && Walk(s[off + HEADER + n..limit]).exact
            && Walk(s[off..limit]).messages
            == [Message(kind, s[off + HEADER..off + HEADER + n])] + Walk(s[off + HEADER + n..limit]).messages
  {
    hide Walk, Decode32;
    var rest := s[off..limit];
    HeaderWords(rest);
    SubSlice(s, off, limit, 0, 4);
    SubSlice(s, off, limit, 4, 8);
    var kind, n := Kind(rest), Length(rest);
    NextMessage(rest, kind, n);
    SubSlice(s, off, limit, HEADER, HEADER + n);
    SubSlice(s, off, limit, HEADER + n, |rest|);
    assert rest[HEADER + n..] == rest[HEADER + n..|rest|];
  }

  lemma SubSlice(s: seq<Byte>, from: nat, to: nat, i: nat, j: nat)
    requires from <= to <= |s| && i <= j <= to - from
    ensures s[from..to][i..j] == s[from + i..from + j]
  {
    var a, b := s[from..to][i..j], s[from + i..from + j];
    assert forall k | 0 <= k < |a| :: a[k] == s[from + i + k] && b[k] == s[from + i + k];
    assert |a| == |b|;
  }

  // What one round of the loop plays: the messages of items i to j - 1.
  ghost predicate PlaysItems(items: seq<Q.Item>, from: nat, to: nat, played: seq<Message>) {
    exists i: nat, j: nat :: PlaysBetween(items, from, to, played, i, j)
  }

  ghost predicate PlaysBetween(items: seq<Q.Item>, from: nat, to: nat, played: seq<Message>, i: nat, j: nat) {
    && i <= j <= Q.DoneCount(items) && StartsAt(items, i, from) && StartsAt(items, j, to)
    && AllFrames(items[i..j]) && played == Messages(items[i..j])
  }

  lemma GrantAligned(g: Ring, n: nat)
    requires Chain(g.log, g.Tip()) && Boundary(g.log, g.Tip(), g.Released())
    requires Boundary(g.log, g.Tip(), g.Released() + n)
    ensures Substantial(Items(g.log)) && Aligned(Items(g.log), g.Released()) && Aligned(Items(g.log), g.Released() + n)
  {
    hide Chain, Boundary, Framed, Aligned, Substantial;
    BoundaryAligned(g.log, g.Tip(), g.Released());
    BoundaryAligned(g.log, g.Tip(), g.Released() + n);
    LogSubstantial(g.log, g.Tip());
  }

  // The bytes given are whole messages, those of the items between two positions.
  ghost predicate WholeMessages(items: seq<Q.Item>, from: nat, to: nat, given: seq<Byte>) {
    Walk(given).exact && PlaysItems(items, from, to, Walk(given).messages)
  }

  // The queue can give these bytes, from one item boundary to another.
  ghost predicate GivesBetween(q: Q.Queue, n: nat, given: seq<Byte>) {
    && Q.Allowed(q, Q.Take(n)) && given == Q.Given(q, Q.Take(n))
    && Substantial(q.items) && Aligned(q.items, q.taken) && Aligned(q.items, q.taken + n)
  }

  lemma GivenWhole(q: Q.Queue, n: nat, given: seq<Byte>)
    requires GivesBetween(q, n, given) && Framed(q.items)
    ensures WholeMessages(q.items, q.taken, q.taken + n, given)
  {
    var i: nat :| StartsAt(q.items, i, q.taken);
    var j: nat :| StartsAt(q.items, j, q.taken + n);
    AlignedTake(q, n, i, j);
    DoneFramed(q.items, j);
    FramesBetween(q.items, i, j);
    assert PlaysBetween(q.items, q.taken, q.taken + n, Walk(given).messages, i, j);
  }

  // The result of consume is given by the queue, and is where the buffer says.
  lemma GrantGives(g: Ring, n: nat)
    requires Geometry(g) && Contents(g) && Granted(g, n)
    requires Boundary(g.log, g.Tip(), g.Released()) && Boundary(g.log, g.Tip(), g.Released() + n)
    ensures g.written + n <= |g.mem|
    ensures GivesBetween(Q.Queue(Items(g.log), g.Released()), n, g.mem[g.written..g.written + n])
  {
    hide Chain, Placed, Pending, Hands, Shape, Contents, Granted, Boundary, Substantial, Aligned, Q.Bytes;
    GrantAligned(g, n);
    GrantContents(g, n);
  }

  // The inner loop, and the release of the range.
  method PlayRange(ring: RingBuffer, buf: array<Byte>, start: nat, len: nat)
    returns (played: seq<Message>, off: nat)
    requires ring.Valid() && len <= ring.model.consumer.avail
    requires start + len <= buf.Length && Walk(buf[start..start + len]).exact
    modifies ring`written, ring`model
    ensures ring.Valid() && ring.model.ring == Freed(old(ring.model.ring), len)
    ensures played == Walk(buf[start..start + len]).messages && off == start + len
  {
    hide Inv, Contents, Leads, Walk, RingBuffer.Shows;
    played, off := WalkRange(buf, start, len);
    ghost var acts := ring.Release(len);
  }

  // One round of the loop of as_audio_PvSpeakThr in the speaking state.  `off0`
  // is what its variable `off` holds before the round, and the result `off`
  // what it holds after; `aborted` says that the assertion on `off` failed.
  method SpeakOnce(ring: RingBuffer, buf: array<Byte>, off0: nat)
    returns (played: seq<Message>, off: nat, aborted: bool)
    requires ring.Valid() && buf[..] == ring.model.ring.mem
    requires Framed(Items(ring.model.ring.log))
    requires Boundary(ring.model.ring.log, ring.model.ring.Tip(), ring.model.ring.Released())
    modifies ring`end, ring`written, ring`model
    ensures ring.Valid() && ring.model.ring.log == old(ring.model.ring.log) && ring.model.ring.mem == buf[..]
    ensures aborted <==> off0 >= buf.Length && old(ring.model.ring.written == ring.model.ring.next.off)
    ensures aborted ==> played == [] && off == off0 && ring.model.ring.Released() == old(ring.model.ring.Released())
    ensures !aborted ==> off == old(OffAfterRound(ring.model, off0))
    ensures !aborted ==>
              ring.model.ring.Released() == old(ring.model.ring.Released() + Available(Followed(ring.model.ring)))
    ensures !aborted ==>
              PlaysItems(Items(ring.model.ring.log), old(ring.model.ring.Released()), ring.model.ring.Released(), played)
    ensures Boundary(ring.model.ring.log, ring.model.ring.Tip(), ring.model.ring.Released())
  {
    hide Inv, Contents, Boundary, Framed, PlaysItems, Leads, Available, Followed, OffsetAfter, RingBuffer.Shows, Walk;
    WalkEmpty();
    RoundFacts(ring.model);
    RoundAssertsExactly(ring.model, off0);
    assert RoundReady(ring.model, AfterConsume(ring.model));
    var len;
    ghost var acts;
    len, off, acts := ring.Consume(off0);
    played := [];
    aborted := off >= buf.Length;
    assert len == 0 ==> buf[ring.model.ring.written..ring.model.ring.written + len] == [];
    if !aborted && len > 0 {
      played, off := PlayRange(ring, buf, off, len);
    }
  }

  // Consume releases nothing and keeps the log and the buffer; what it returns
  // is a row of whole messages, and releasing it ends at a record boundary.
  ghost predicate RoundReady(s: State, s': State) {
    var g, g', n := s.ring, s'.ring, Available(Followed(s.ring));
    && g'.log == g.log && g'.mem == g.mem && g'.Released() == g.Released() && g'.Tip() == g.Tip()
    && s'.consumer == Ready(n)
    && Freed(g', n).Released() == g.Released() + n
    && Boundary(g.log, g.Tip(), g.Released() + n)
    && g'.written + n <= |g.mem|
    && WholeMessages(Items(g.log), g.Released(), g.Released() + n, g.mem[g'.written..g'.written + n])
  }

  lemma RoundFacts(s: State)
    requires Good(s) && Settled(s) && Framed(Items(s.ring.log))
    requires Boundary(s.ring.log, s.ring.Tip(), s.ring.Released())
    ensures RoundReady(s, AfterConsume(s))
  {
    AvailableExact(s);
    var acts := ConsumeLeads(s);
    RoundOf(s, AfterConsume(s));
  }

  lemma {:induction false} RoundOf(s: State, s': State)
    requires Good(s') && s'.consumer == Ready(Available(Followed(s.ring))) && Framed(Items(s.ring.log))
    requires s'.ring.log == s.ring.log && s'.ring.mem == s.ring.mem
    requires s'.ring.Released() == s.ring.Released() && s'.ring.Tip() == s.ring.Tip()
    requires Boundary(s.ring.log, s.ring.Tip(), s.ring.Released())
    ensures RoundReady(s, s')
  {
    hide Contents, Geometry, WholeMessages, Granted, Boundary, GivesBetween, Framed;
    var g', n := s'.ring, s'.consumer.avail;
    GrantEnds(s');
    GrantGives(g', n);
    GivenWhole(Q.Queue(Items(g'.log), g'.Released()), n, g'.mem[g'.written..g'.written + n]);
  }

  lemma GrantEnds(s: State)
    requires Good(s) && s.consumer.Ready?
    ensures var g, n := s.ring, s.consumer.avail;
            Granted(g, n) && Boundary(g.log, g.Tip(), g.Released() + n) && Freed(g, n).Released() == g.Released() + n
  {
    RingConsumerSteps.FreedPosition(s.ring, s.consumer.avail);
  }

  /* --------------------- the assertion on the offset ---------------------- */

  // The assertion of a round that starts in s, with off0 in the variable.
  predicate RoundAsserts(s: State, off0: nat) {
    OffsetAfter(s.ring, off0) < s.ring.space
  }

  // What the variable holds after such a round.
  function OffAfterRound(s: State, off0: nat): nat {
    OffsetAfter(s.ring, off0) + Available(Followed(s.ring))
  }

  // The assertion of a round holds exactly when the variable holds an offset in
  // the buffer, or the ring is not empty.
  lemma RoundAssertsExactly(s: State, off0: nat)
    requires Inv(s) && Settled(s)
    ensures RoundAsserts(s, off0) <==> off0 < s.ring.space || s.ring.written != s.ring.next.off
    ensures s.ring.written == s.ring.next.off <==> s.ring.Released() == s.ring.Tip()
    ensures !RoundAsserts(s, off0) ==> OffsetAfter(s.ring, off0) == off0
    ensures |s.ring.mem| == s.ring.space
  {
    CalmUnlocked(s);
  }

  // Before the first round the variable is not initialised: any value is
  // possible, and with nothing acquired yet the assertion depends on it.
  lemma FirstRoundAsserts(s: State, off0: nat)
    requires Init(s)
    ensures RoundAsserts(s, off0) <==> off0 < s.ring.space
  {
    NewRing(s);
    RoundAssertsExactly(s, off0);
  }

  // After a round the variable is in the buffer, unless the range ended at the
  // physical end; then it is the space, and the consumer is back at offset 0.
  lemma OffAfterRoundExactly(s: State, off0: nat)
    requires Good(s) && Settled(s) && RoundAsserts(s, off0)
    ensures var g, n := Followed(s.ring), Available(Followed(s.ring));
            && OffAfterRound(s, off0) == (if s.ring.written == s.ring.next.off then off0 else g.written + n)
            && OffAfterRound(s, off0) <= s.ring.space
            && (OffAfterRound(s, off0) == s.ring.space <==> n > 0 && Round(s.ring).written == 0)
  {
    hide Chain, Placed, Pending, Boundary, Owners, Workers, Contents, ConsumerOK, FirstOpen, Available, ConsumeReady;
    CalmUnlocked(s);
    ConsumeFacts(s);
    if s.ring.written == s.ring.next.off {
      SameLapAvailable(s);
    }
  }

  // The round after a range that ended at the physical end fails exactly when
  // nothing was acquired in between.
  lemma NextRoundAsserts(s: State, off0: nat, s': State)
    requires Good(s) && Settled(s) && RoundAsserts(s, off0) && OffAfterRound(s, off0) == s.ring.space
    requires Inv(s') && Settled(s') && s'.ring.space == s.ring.space && s'.ring.written == Round(s.ring).written
    ensures RoundAsserts(s', OffAfterRound(s, off0)) <==> s'.ring.next.off != 0
    ensures s'.ring.next.off == 0 <==> s'.ring.Released() == s'.ring.Tip()
  {
    OffAfterRoundExactly(s, off0);
    RoundAssertsExactly(s', s.ring.space);
  }

  // An empty ring, a range of len bytes up to at most the physical end, and the
  // round that plays it.
  predicate FitsBefore(s: State, w: nat, len: nat) {
    && Settled(s) && Sized(s) && w < |s.producers| && s.producers[w].Idle?
    && s.ring.Released() == s.ring.Tip() && 0 < len < s.ring.space && s.ring.next.off + len <= s.ring.space
  }

  // The client can play what is in the ring.
  predicate Speakable(s: State) {
    Framed(Items(s.ring.log)) && Boundary(s.ring.log, s.ring.Tip(), s.ring.Released())
  }

  // The ring after worker w acquired a range and wrote these bytes to it.
  function AfterFill(s: State, w: nat, bytes: seq<Byte>): State
    requires Sized(s) && w < |s.producers| && HoldsRange(s, w, bytes)
  {
    s.(ring := Filling(s.ring, s.producers[w].k, bytes, |bytes|))
  }

  predicate HoldsRange(s: State, w: nat, bytes: seq<Byte>)
    requires w < |s.producers|
  {
    && s.producers[w].Holding? && s.producers[w].k < |s.ring.log|
    && |bytes| == |s.ring.log[s.producers[w].k].data|
    && s.ring.log[s.producers[w].k].phys + |bytes| <= |s.ring.mem|
  }

  lemma AcquiresUp(s: State, w: nat, len: nat)
    requires Inv(s) && FitsBefore(s, w, len)
    ensures var s1 := AfterAcquire(s, w, len);
            && AcquireResult(s.ring, len) == s.ring.next.off
            && s1.producers == s.producers[w := Holding(|s.ring.log|)] && s1.consumer == s.consumer
            && |s1.ring.log| == |s.ring.log| + 1 && s1.ring.log[..|s.ring.log|] == s.ring.log
            && (var r := s1.ring.log[|s.ring.log|];
                r.base == s.ring.Tip() && |r.data| == r.len == len && r.phys == s.ring.next.off)
            && |s1.ring.mem| == s1.ring.space == s.ring.space
            && s1.ring.written == s.ring.written == s.ring.next.off && s1.ring.lag == s.ring.lag == s.ring.cur
            && s1.ring.Tip() == s.ring.Tip() + len
            && s1.ring.next.off == (s.ring.next.off + len) % s.ring.space
            && s1.ring.cur == if s.ring.next.off + len == s.ring.space then s1.ring.Tip() else s.ring.cur
  {
    hide Chain, Placed, Boundary, ConsumerOK;
    CalmUnlocked(s);
    NothingOpen(s);
    RemainderOf(s.ring.next.off + len, s.ring.space);
  }

  // The log after the new range was filled with one message and produced.
  lemma MessageAppended(log: seq<Record>, log': seq<Record>, tip: nat, bytes: seq<Byte>)
    requires Framed(Items(log)) && AllProduced(log) && IsFrame(bytes)
    requires |log'| == |log| + 1 && log'[..|log|] == log
    requires log'[|log|].data == bytes && log'[|log|].done
    ensures Framed(Items(log')) && AllProduced(log')
    ensures Boundary(log', tip, log'[|log|].base)
  {
    hide IsFrame;
    forall k | 0 <= k < |log'| ensures log'[k].done && IsFrame(log'[k].data) {
      if k < |log| {
        assert log'[k] == log'[..|log|][k] && Items(log)[k].done;
      }
    }
  }

  lemma RemainderOf(x: nat, space: nat)
    requires 0 < space && x <= space
    ensures x % space == if x == space then 0 else x
  {
  }

  // An empty ring has no open range, and the consumer is not behind.
  lemma NothingOpen(s: State)
    requires Inv(s) && s.ring.Released() == s.ring.Tip()
    ensures AllProduced(s.ring.log) && !s.ring.Behind() && s.ring.written == s.ring.next.off
  {
    forall k | 0 <= k < |s.ring.log| ensures s.ring.log[k].done {
      assert s.ring.log[k].done || PendingOK(s.ring, s.ring.log[k]);
    }
  }

  // Worker w acquires a range, fills it with one message and produces it; the
  // client can play it, and its round leaves an empty ring.
  lemma PlaysUp(s: State, w: nat, bytes: seq<Byte>, off0: nat)
    returns (acts: seq<Action>, s2: State)
    requires Good(s) && FitsBefore(s, w, |bytes|) && IsFrame(bytes) && Framed(Items(s.ring.log))
    ensures Leads(s, acts, s2) && Good(s2) && Settled(s2) && Speakable(s2) && RoundAsserts(s2, off0)
    ensures OffAfterRound(s2, off0) == s.ring.next.off + |bytes| && s2.ring.space == s.ring.space
    ensures |s2.ring.log| == |s.ring.log| + 1 && s2.ring.log[..|s.ring.log|] == s.ring.log
    ensures s2.ring.log[|s.ring.log|].data == bytes
    ensures var t := AfterRound(s2);
            && Good(t) && Settled(t) && Sized(t) && t.producers == s.producers && t.ring.log == s2.ring.log
            && t.ring.Released() == t.ring.Tip() && t.ring.space == s.ring.space
            && t.ring.written == t.ring.next.off == (s.ring.next.off + |bytes|) % s.ring.space
  {
    hide Leads, Inv, Contents, Available, Followed, Framed, IsFrame, Boundary, Round, RoundAsserts, OffAfterRound;
    acts, s2 := ProducesUp(s, w, bytes);
    CalmFewWraps(s2);
    var round := RoundLeads(s2);
    PlaysAll(s2, off0);
    RoundKeeps(s2.ring);
  }

  lemma ProducesUp(s: State, w: nat, bytes: seq<Byte>) returns (acts: seq<Action>, s2: State)
    requires Good(s) && FitsBefore(s, w, |bytes|) && IsFrame(bytes) && Framed(Items(s.ring.log))
    ensures Leads(s, acts, s2) && Good(s2) && Settled(s2) && Speakable(s2)
    ensures |s2.ring.log| == |s.ring.log| + 1 && s2.ring.log[..|s.ring.log|] == s.ring.log
    ensures s2.ring.log[|s.ring.log|].data == bytes && s2.producers == s.producers
    ensures var g, g' := s.ring, s2.ring;
            && AllProduced(g'.log) && g'.Released() == g.Released() == g.Tip() && g'.Tip() == g.Tip() + |bytes|
            && g'.written == g.next.off && g'.next.off == (g.next.off + |bytes|) % g.space && g'.space == g.space
            && (g'.Behind() ==> g'.cur == g'.Tip())
  {
    hide Leads, Inv, Contents, Framed, IsFrame, Boundary, Filling;
    var s1 := AfterAcquire(s, w, |bytes|);
    acts := AcquireLeads(s, w, |bytes|);
    AcquiresUp(s, w, |bytes|);
    CalmFewWraps(s1);
    var k := |s.ring.log|;
    var fills := FillLeads(s1, w, bytes, |bytes|);
    var f := AfterFill(s1, w, bytes);
    LeadsTogether(s, acts, s1, fills, f);
    LeadsKeepsGood(s1, fills, f);
    FillingShape(s1.ring, k, bytes, |bytes|);
    var last := OneStepLeads(f, Produce(w));
    s2 := AfterProduce(f, w);
    LeadsTogether(s, acts + fills, f, last, s2);
    acts := acts + fills + last;
    NothingOpen(s);
    MessageAppended(s.ring.log, s2.ring.log, s2.ring.Tip(), bytes);
    assert s2.producers == s.producers;
  }

  lemma CalmFewWraps(s: State)
    requires Inv(s) && Calm(s)
    ensures FewWraps(s) && Sized(s)
  {
  }

  // A round over one range up to the physical end or before.
  lemma PlaysAll(s: State, off0: nat)
    requires Inv(s) && Settled(s) && AllProduced(s.ring.log) && s.ring.Released() < s.ring.Tip()
    requires s.ring.Behind() ==> s.ring.cur == s.ring.Tip()
    ensures RoundAsserts(s, off0)
    ensures OffAfterRound(s, off0) == s.ring.written + (s.ring.Tip() - s.ring.Released())
    ensures Round(s.ring).Released() == Round(s.ring).Tip() && Round(s.ring).written == Round(s.ring).next.off
    ensures Round(s.ring).space == s.ring.space && Round(s.ring).next == s.ring.next
  {
    RoundEmptiesLap(s.ring);
    AllProducedOpen(s.ring);
    RoundAssertsExactly(s, off0);
  }

  // The assertion does fail: after two messages that together fill the buffer,
  // both played, a round that finds the ring empty aborts.  It does not matter
  // what the variable held at the beginning.  Each of the three rounds starts in
  // a state that the client can play.
  lemma StaleOffsetAborts(s: State, w: nat, first: seq<Byte>, second: seq<Byte>, off0: nat)
    returns (acts1: seq<Action>, s1: State, acts2: seq<Action>, s2: State)
    requires Init(s) && w < |s.producers|
    requires IsFrame(first) && IsFrame(second) && |first| + |second| == s.ring.space
    ensures Leads(s, acts1, s1) && Good(s1) && Settled(s1) && Speakable(s1) && RoundAsserts(s1, off0)
    ensures |s1.ring.log| == 1 && s1.ring.log[0].data == first
    ensures Leads(AfterRound(s1), acts2, s2) && Good(s2) && Settled(s2) && Speakable(s2)
    ensures RoundAsserts(s2, OffAfterRound(s1, off0))
    ensures |s2.ring.log| == 2 && s2.ring.log[0].data == first && s2.ring.log[1].data == second
    ensures Good(AfterRound(s2)) && Settled(AfterRound(s2)) && Speakable(AfterRound(s2))
    ensures !RoundAsserts(AfterRound(s2), OffAfterRound(s2, OffAfterRound(s1, off0)))
  {
    hide Leads, Inv, Contents, Available, Followed, Round, OffAfterRound, RoundAsserts;
    NewRing(s);
    var s0 := AfterRegister(s, w);
    acts1 := RegisterLeads(s, w);
    var more;
    more, s1 := PlaysUp(s0, w, first, off0);
    LeadsTogether(s, acts1, s0, more, s1);
    acts1 := acts1 + more;
    RemainderOf(|first|, s.ring.space);
    acts2, s2 := PlaysUp(AfterRound(s1), w, second, OffAfterRound(s1, off0));
    assert s2.ring.log[0] == s2.ring.log[..1][0];
    RoundAssertsExactly(AfterRound(s2), s.ring.space);
  }
}
