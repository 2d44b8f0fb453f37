/**
Messages in the ring: a header of two little-endian 32-bit words (type and
payload length) and the payload, as laid out by `as_msg_hdr_t`.  If every range
holds one message, the walk over what consume returned visits whole messages.
*/
module Frames {
  import opened Integers
  import opened PackedWords
  import opened Q = ReserveQueue

  const HEADER: nat := 8

  datatype Message = Message(kind: nat, payload: seq<Byte>)

  predicate Encodable(m: Message) {
    m.kind < TWO_32 && |m.payload| < TWO_32
  }

  function Encode32(x: nat): (s: seq<Byte>)
    requires x < TWO_32
    ensures |s| == 4
  {
    [x % 256, x / 256 % 256, x / 65536 % 256, x / 16777216]
  }

  function Decode32(s: seq<Byte>): nat
    requires |s| == 4
  {
    var b0: int, b1: int, b2: int, b3: int := s[0], s[1], s[2], s[3];
    b0 + 256 * b1 + 65536 * b2 + 16777216 * b3
  }

  lemma WordRoundTrip(x: nat)
    requires x < TWO_32
    ensures Decode32(Encode32(x)) == x
  {
    assert x / 65536 == x / 256 / 256 && x / 16777216 == x / 256 / 256 / 256;
  }

  function Encode(m: Message): (s: seq<Byte>)
    requires Encodable(m)
    ensures |s| == HEADER + |m.payload|
  {
    Encode32(m.kind) + Encode32(|m.payload|) + m.payload
  }

  function Kind(s: seq<Byte>): nat
    requires |s| >= HEADER
  {
    Decode32(s[0..4])
  }

  function Length(s: seq<Byte>): nat
    requires |s| >= HEADER
  {
    Decode32(s[4..8])
  }

  // s holds one message and nothing else.
  predicate IsFrame(s: seq<Byte>) {
    |s| >= HEADER && |s| == HEADER + Length(s)
  }

  function Decode(s: seq<Byte>): Message
    requires IsFrame(s)
  {
    Message(Kind(s), s[HEADER..])
  }

  lemma MessageRoundTrip(m: Message)
    requires Encodable(m)
    ensures IsFrame(Encode(m)) && Decode(Encode(m)) == m
  {
    var s := Encode(m);
    WordRoundTrip(m.kind);
    WordRoundTrip(|m.payload|);
    assert s[0..4] == Encode32(m.kind) && s[4..8] == Encode32(|m.payload|);
    assert s[HEADER..] == m.payload;
  }

  // The layout: type, length and payload, the words with the low byte first.
  lemma MessageLayout(m: Message)
    requires Encodable(m)
    ensures var s := Encode(m);
            && |s| == 8 + |m.payload| && s[8..] == m.payload
            && s[0] as int + 0x100 * s[1] as int + 0x1_0000 * s[2] as int + 0x100_0000 * s[3] as int == m.kind
            && s[4] as int + 0x100 * s[5] as int + 0x1_0000 * s[6] as int + 0x100_0000 * s[7] as int == |m.payload|
  {
    var s := Encode(m);
    WordRoundTrip(m.kind);
    WordRoundTrip(|m.payload|);
    assert s[0..4] == Encode32(m.kind) && s[4..8] == Encode32(|m.payload|) && s[8..] == m.payload;
  }

  /* -------------------------------- the walk ------------------------------ */

  // The messages that a walk from the start of s meets, and whether the walk
  // stops exactly at the end of s, without reading past it.
  datatype Walked = Walked(messages: seq<Message>, exact: bool)

  function Walk(s: seq<Byte>): Walked
    decreases |s|
  {
    if |s| == 0 then Walked([], true)
    else if |s| < HEADER || |s| < HEADER + Length(s) then Walked([], false)
    else
      var n := HEADER + Length(s);
      var rest := Walk(s[n..]);
      FirstFrame(s);
      Walked([Decode(s[..n])] + rest.messages, rest.exact)
  }

  lemma FirstFrame(s: seq<Byte>)
    requires |s| >= HEADER && |s| >= HEADER + Length(s)
    ensures IsFrame(s[..HEADER + Length(s)])
    ensures Kind(s[..HEADER + Length(s)]) == Kind(s)
    ensures s[..HEADER + Length(s)][HEADER..] == s[HEADER..HEADER + Length(s)]
  {
    var n := HEADER + Length(s);
    assert s[..n][4..8] == s[4..8] && s[..n][0..4] == s[0..4];
  }

  // A frame in front of anything is the first message of the walk.
  lemma WalkPastFrame(f: seq<Byte>, s: seq<Byte>)
    requires IsFrame(f)
    ensures Walk(f + s) == Walked([Decode(f)] + Walk(s).messages, Walk(s).exact)
  {
    var t := f + s;
    assert t[4..8] == f[4..8];
    assert t[..|f|] == f && t[|f|..] == s;
  }

  predicate Framed(items: seq<Item>) {
    forall k | 0 <= k < |items| :: items[k].done ==> IsFrame(items[k].data)
  }

  predicate AllFrames(items: seq<Item>) {
    forall k | 0 <= k < |items| :: IsFrame(items[k].data)
  }

  function Messages(items: seq<Item>): (ms: seq<Message>)
    requires AllFrames(items)
    ensures |ms| == |items|
  {
    seq(|items|, k requires 0 <= k < |items| => Decode(items[k].data))
  }

  lemma {:induction false} WalkItems(items: seq<Item>)
    requires AllFrames(items)
    ensures Walk(Bytes(items)) == Walked(Messages(items), true)
  {
    if |items| > 0 {
      WalkItems(items[1..]);
      HeadBytes(items);
      WalkPastFrame(items[0].data, Bytes(items[1..]));
      assert Messages(items) == [Decode(items[0].data)] + Messages(items[1..]);
    }
  }

  /* ----------------------------- over whole runs -------------------------- */

  // Position x is where item i starts, or the next one will.
  predicate StartsAt(items: seq<Item>, i: nat, x: nat) {
    i <= |items| && |Bytes(items[..i])| == x
  }

  ghost predicate Aligned(items: seq<Item>, x: nat) {
    exists i: nat :: StartsAt(items, i, x)
  }

  lemma SliceOfItems(items: seq<Item>, i: nat, j: nat)
    requires i <= j <= |items|
    ensures |Bytes(items[..i])| <= |Bytes(items[..j])| <= |Bytes(items)|
    ensures Bytes(items)[|Bytes(items[..i])|..|Bytes(items[..j])|] == Bytes(items[i..j])
  {
    assert items[..j] == items[..i] + items[i..j];
    BytesConcat(items[..i], items[i..j]);
    BytesPrefix(items, j);
  }

  // Items have at least one byte, so positions tell items apart.
  predicate Substantial(items: seq<Item>) {
    forall k | 0 <= k < |items| :: |items[k].data| > 0
  }

  lemma {:induction false} PositionsIncrease(items: seq<Item>, i: nat, j: nat)
    requires Substantial(items) && i < j <= |items|
    ensures |Bytes(items[..i])| < |Bytes(items[..j])|
  {
    assert items[..j][..j - 1] == items[..j - 1];
    if i < j - 1 {
      PositionsIncrease(items, i, j - 1);
    }
  }

  // A Take between item boundaries hands over whole items, all committed.
  lemma AlignedTake(q: Queue, n: nat, i: nat, j: nat)
    requires Allowed(q, Take(n)) && Substantial(q.items)
    requires StartsAt(q.items, i, q.taken) && StartsAt(q.items, j, q.taken + n)
    ensures i <= j <= DoneCount(q.items)
    ensures Given(q, Take(n)) == Bytes(q.items[i..j])
  {
    var d := DoneCount(q.items);
    if j < i {
      PositionsIncrease(q.items, j, i);
    }
    if d < j {
      PositionsIncrease(q.items, d, j);
    }
    var done := q.items[..d];
    assert done[..i] == q.items[..i] && done[..j] == q.items[..j] && done[i..j] == q.items[i..j];
    SliceOfItems(done, i, j);
  }

  // What the consumer's walks meet in the first m operations.
  function Visited(qs: seq<Queue>, ops: seq<Op>, m: nat): seq<Message>
    requires IsRun(qs, ops) && m <= |ops|
  {
    if m == 0 then [] else Visited(qs, ops, m - 1) + Walk(Given(qs[m - 1], ops[m - 1])).messages
  }

  // The consumer always takes up to an item boundary, and producers commit
  // only whole messages.
  ghost predicate Disciplined(qs: seq<Queue>, ops: seq<Op>) {
    && IsRun(qs, ops)
    && (forall i | 0 <= i < |ops| :: ops[i].Take? ==> Aligned(qs[i].items, qs[i].taken + ops[i].n))
    && (forall i | 0 <= i < |qs| :: Framed(qs[i].items) && Substantial(qs[i].items))
  }

  // Steps keep the committed items.
  lemma DoneItemsKept(q: Queue, op: Op, k: nat)
    requires Allowed(q, op) && k <= DoneCount(q.items)
    ensures k <= DoneCount(Effect(q, op).items) && Effect(q, op).items[..k] == q.items[..k]
  {
    assert forall i | 0 <= i < k :: Effect(q, op).items[i] == q.items[i];
  }

  // Over a whole run every message is visited exactly once, in the order of
  // the reservations: the messages visited are those of the first k items.
  lemma {:induction false} EveryMessageOnce(qs: seq<Queue>, ops: seq<Op>, m: nat) returns (k: nat)
    requires Disciplined(qs, ops) && m <= |ops|
    ensures Progressed(qs, ops, m, k)
  {
    if m == 0 {
      k := 0;
    } else {
      var k' := EveryMessageOnce(qs, ops, m - 1);
      k := VisitStep(qs, ops, m - 1, k');
    }
  }

  // The first m operations have visited the messages of the first k items.
  ghost predicate Progressed(qs: seq<Queue>, ops: seq<Op>, m: nat, k: nat) {
    && Disciplined(qs, ops) && m <= |ops|
    && k <= DoneCount(qs[m].items) && StartsAt(qs[m].items, k, qs[m].taken)
    && AllFrames(qs[m].items[..k]) && Visited(qs, ops, m) == Messages(qs[m].items[..k])
  }

  lemma VisitStep(qs: seq<Queue>, ops: seq<Op>, m: nat, k: nat) returns (k': nat)
    requires m < |ops| && Progressed(qs, ops, m, k)
    ensures Progressed(qs, ops, m + 1, k')
  {
    var q, op := qs[m], ops[m];
    assert Allowed(q, op) && qs[m + 1] == Effect(q, op);
    k' := VisitMore(q, op, k);
    var items, items' := q.items, Effect(q, op).items;
    assert Messages(items'[..k']) == Visited(qs, ops, m) + Walk(Given(q, op)).messages;
  }

  // One more operation: from the first k items visited to the first k'.
  lemma VisitMore(q: Queue, op: Op, k: nat) returns (k': nat)
    requires Allowed(q, op) && Framed(q.items) && Substantial(q.items)
    requires k <= DoneCount(q.items) && StartsAt(q.items, k, q.taken)
    requires op.Take? ==> Aligned(q.items, q.taken + op.n)
    ensures var q' := Effect(q, op);
            && k' <= DoneCount(q'.items) && StartsAt(q'.items, k', q'.taken)
            && AllFrames(q.items[..k]) && AllFrames(q'.items[..k'])
            && Messages(q'.items[..k']) == Messages(q.items[..k]) + Walk(Given(q, op)).messages
            && Walk(Given(q, op)).exact
  {
    DoneFramed(q.items, k);
    if op.Take? {
      k' := VisitTake(q, op.n, k);
    } else {
      k' := k;
      DoneItemsKept(q, op, k);
    }
  }

  lemma DoneFramed(items: seq<Item>, k: nat)
    requires Framed(items) && k <= DoneCount(items)
    ensures AllFrames(items[..k])
  {
  }

  lemma VisitTake(q: Queue, n: nat, k: nat) returns (k': nat)
    requires Allowed(q, Take(n)) && Framed(q.items) && Substantial(q.items)
    requires k <= DoneCount(q.items) && StartsAt(q.items, k, q.taken) && Aligned(q.items, q.taken + n)
    ensures k' <= DoneCount(q.items) && StartsAt(q.items, k', q.taken + n)
    ensures AllFrames(q.items[..k]) && AllFrames(q.items[..k'])
    ensures Messages(q.items[..k']) == Messages(q.items[..k]) + Walk(Given(q, Take(n))).messages
    ensures Walk(Given(q, Take(n))).exact
  {
    k' :| StartsAt(q.items, k', q.taken + n);
    AlignedTake(q, n, k, k');
    DoneFramed(q.items, k');
    FramesBetween(q.items, k, k');
  }

  lemma FramesBetween(items: seq<Item>, i: nat, j: nat)
    requires i <= j <= |items| && AllFrames(items[..j])
    ensures AllFrames(items[..i]) && AllFrames(items[i..j])
    ensures Walk(Bytes(items[i..j])) == Walked(Messages(items[i..j]), true)
    ensures Messages(items[..j]) == Messages(items[..i]) + Messages(items[i..j])
  {
    forall k | 0 <= k < |items[i..j]| ensures IsFrame(items[i..j][k].data) {
      assert items[i..j][k] == items[..j][i + k];
    }
    forall k | 0 <= k < i ensures IsFrame(items[..i][k].data) {
      assert items[..i][k] == items[..j][k];
    }
    WalkItems(items[i..j]);
  }
}
