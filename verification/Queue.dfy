/**
What the ring buffer is for, without the ring: a queue in which producers
reserve room, fill it and commit it in any order, and one consumer takes bytes
in the order of the reservations, never past the first open reservation.
*/
module ReserveQueue {
  import opened PackedWords

  datatype Item = Item(owner: nat, data: seq<Byte>, done: bool)

  datatype Queue = Queue(items: seq<Item>, taken: nat)

  function Bytes(items: seq<Item>): seq<Byte> {
    if |items| == 0 then [] else Bytes(items[..|items| - 1]) + items[|items| - 1].data
  }

  // The number of committed items before the first open one.
  function DoneCount(items: seq<Item>): (n: nat)
    ensures n <= |items|
    ensures forall k | 0 <= k < n :: items[k].done
    ensures n < |items| ==> !items[n].done
  {
    if |items| == 0 || !items[0].done then 0 else 1 + DoneCount(items[1..])
  }

  // The bytes a consumer may ever have been given.
  function Deliverable(items: seq<Item>): seq<Byte> {
    Bytes(items[..DoneCount(items)])
  }

  datatype Op = Stutter | Reserve(owner: nat, data: seq<Byte>) | Write(k: nat, j: nat, v: Byte) | Commit(k: nat) | Take(n: nat)

  predicate Allowed(q: Queue, op: Op) {
    match op
    case Stutter => true
    case Reserve(owner, data) => |data| > 0 && forall k | 0 <= k < |q.items| :: q.items[k].done || q.items[k].owner != owner
    case Write(k, j, v) => k < |q.items| && !q.items[k].done && j < |q.items[k].data|
    case Commit(k) => k < |q.items| && !q.items[k].done
    case Take(n) => q.taken + n <= |Deliverable(q.items)|
  }

  function Effect(q: Queue, op: Op): Queue
    requires Allowed(q, op)
  {
    match op
    case Stutter => q
    case Reserve(owner, data) => q.(items := q.items + [Item(owner, data, false)])
    case Write(k, j, v) => q.(items := q.items[k := q.items[k].(data := q.items[k].data[j := v])])
    case Commit(k) => q.(items := q.items[k := q.items[k].(done := true)])
    case Take(n) => q.(taken := q.taken + n)
  }

  lemma {:induction false} BytesConcat(a: seq<Item>, b: seq<Item>)
    ensures Bytes(a + b) == Bytes(a) + Bytes(b)
  {
    if |b| == 0 {
      assert a + b == a;
    } else {
      var m := |b| - 1;
      BytesConcat(a, b[..m]);
      assert (a + b)[..|a + b| - 1] == a + b[..m] && (a + b)[|a + b| - 1] == b[m];
      assert Bytes(a) + Bytes(b) == (Bytes(a) + Bytes(b[..m])) + b[m].data;
    }
  }

  lemma {:induction false} HeadBytes(items: seq<Item>)
    requires |items| > 0
    ensures Bytes(items) == items[0].data + Bytes(items[1..])
  {
    var head := items[..1];
    assert head[..0] == [] && Bytes(head) == items[0].data;
    assert items == head + items[1..];
    BytesConcat(head, items[1..]);
  }

  lemma {:induction false} BytesPrefix(items: seq<Item>, k: nat)
    requires k <= |items|
    ensures Bytes(items[..k]) <= Bytes(items)
  {
    assert items == items[..k] + items[k..];
    BytesConcat(items[..k], items[k..]);
  }

  // The bytes of item k follow those of the items before it.
  lemma ItemBytes(items: seq<Item>, k: nat)
    requires k < |items|
    ensures |Bytes(items[..k])| + |items[k].data| <= |Bytes(items)|
    ensures Bytes(items)[|Bytes(items[..k])|..][..|items[k].data|] == items[k].data
  {
    assert items[..k + 1][..k] == items[..k];
    BytesPrefix(items, k + 1);
  }

  // Committed bytes never change, and never become open again.
  lemma DeliverableGrows(q: Queue, op: Op)
    requires Allowed(q, op)
    ensures Deliverable(q.items) <= Deliverable(Effect(q, op).items)
  {
    var items', n := Effect(q, op).items, DoneCount(q.items);
    assert items'[..n] == q.items[..n];
    assert n <= DoneCount(items');
    var m := DoneCount(items');
    assert items'[..m] == items'[..n] + items'[n..m];
    BytesConcat(items'[..n], items'[n..m]);
  }

  // A run of the queue.
  predicate IsRun(qs: seq<Queue>, ops: seq<Op>) {
    && |qs| == |ops| + 1
    && qs[0] == Queue([], 0)
    && (forall i | 0 <= i < |ops| :: Allowed(qs[i], ops[i]) && qs[i + 1] == Effect(qs[i], ops[i]))
  }

  // What one Take hands to the consumer.
  function Given(q: Queue, op: Op): seq<Byte>
    requires Allowed(q, op)
  {
    if op.Take? then Deliverable(q.items)[q.taken..q.taken + op.n] else []
  }

  // Everything handed to the consumer in the first m operations.
  function Output(qs: seq<Queue>, ops: seq<Op>, m: nat): seq<Byte>
    requires IsRun(qs, ops) && m <= |ops|
  {
    if m == 0 then [] else Output(qs, ops, m - 1) + Given(qs[m - 1], ops[m - 1])
  }

  lemma PrefixSplit(bytes: seq<Byte>, longer: seq<Byte>, t: nat, n: nat)
    requires bytes <= longer && t + n <= |bytes|
    ensures longer[..t + n] == bytes[..t] + bytes[t..t + n]
  {
  }

  lemma OutputGrows(q: Queue, op: Op)
    requires Allowed(q, op) && q.taken <= |Deliverable(q.items)|
    ensures Effect(q, op).taken <= |Deliverable(Effect(q, op).items)|
    ensures Deliverable(Effect(q, op).items)[..Effect(q, op).taken]
         == Deliverable(q.items)[..q.taken] + Given(q, op)
  {
    DeliverableGrows(q, op);
    PrefixSplit(Deliverable(q.items), Deliverable(Effect(q, op).items), q.taken, if op.Take? then op.n else 0);
  }

  // The consumer has received the reserved ranges in the order of their
  // reservation: each byte once, none before its commit.
  lemma {:induction false} OutputIsPrefix(qs: seq<Queue>, ops: seq<Op>, m: nat)
    requires IsRun(qs, ops) && m <= |ops|
    ensures qs[m].taken <= |Deliverable(qs[m].items)|
    ensures Output(qs, ops, m) == Deliverable(qs[m].items)[..qs[m].taken]
  {
    if m > 0 {
      OutputIsPrefix(qs, ops, m - 1);
      OutputGrows(qs[m - 1], ops[m - 1]);
    }
  }

  // An item is done only if its commit is among the operations.
  lemma {:induction false} DoneWasCommitted(qs: seq<Queue>, ops: seq<Op>, m: nat, k: nat)
    requires IsRun(qs, ops) && m <= |ops| && k < |qs[m].items| && qs[m].items[k].done
    ensures exists i | 0 <= i < m :: ops[i] == Commit(k)
  {
    if m > 0 && ops[m - 1] != Commit(k) {
      DoneWasCommitted(qs, ops, m - 1, k);
    }
  }
}
