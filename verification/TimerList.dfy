/**
The timer list of `src/MultiTimer.c` as a value: the armed timers with their
deadlines, in list order.
*/
module TimerList {
  import opened Integers

  datatype Option<T> = None | Some(value: T)

  datatype Entry<T> = Entry(timer: T, deadline: nat)

  // A call made by the program or by a callback; `now` is the tick it reads.
  datatype Op<T> = Start(timer: T, timing: nat, now: nat) | Stop(timer: T)

  // uint64_t addition.
  function Deadline(now: nat, timing: nat): nat {
    (now + timing) % TWO_64
  }

  // A start sets the deadline `timing` ticks from now, less 2^64 if that is too
  // far for a 64-bit word.
  lemma DeadlineAt(now: nat, timing: nat)
    requires now < TWO_64 && timing < TWO_64
    ensures Deadline(now, timing) == now + timing - if now + timing < TWO_64 then 0 else TWO_64
  {
  }

  function Remove<T(==)>(l: seq<Entry<T>>, t: T): seq<Entry<T>> {
    if l == [] then [] else if l[0].timer == t then l[1..] else [l[0]] + Remove(l[1..], t)
  }

  // Before the first entry that is not earlier.
  function Insert<T>(l: seq<Entry<T>>, e: Entry<T>): seq<Entry<T>> {
    if l == [] || l[0].deadline >= e.deadline then [e] + l else [l[0]] + Insert(l[1..], e)
  }

  function Arm<T(==)>(l: seq<Entry<T>>, t: T, deadline: nat): seq<Entry<T>> {
    Insert(Remove(l, t), Entry(t, deadline))
  }

  function Call<T(==)>(l: seq<Entry<T>>, op: Op<T>): seq<Entry<T>> {
    match op
    case Start(t, timing, now) => Arm(l, t, Deadline(now, timing))
    case Stop(t) => Remove(l, t)
  }

  function CallAll<T(==)>(l: seq<Entry<T>>, ops: seq<Op<T>>): seq<Entry<T>>
    decreases |ops|
  {
    if ops == [] then l else CallAll(Call(l, ops[0]), ops[1..])
  }

  /* ----------------------- the list is a sorted map ----------------------- */

  predicate Distinct<T(==)>(l: seq<Entry<T>>) {
    forall i, j | 0 <= i < j < |l| :: l[i].timer != l[j].timer
  }

  predicate Sorted<T>(l: seq<Entry<T>>) {
    forall i, j | 0 <= i < j < |l| :: l[i].deadline <= l[j].deadline
  }

  // The deadline of an armed timer.
  function Lookup<T(==)>(l: seq<Entry<T>>, t: T): Option<nat> {
    if l == [] then None else if l[0].timer == t then Some(l[0].deadline) else Lookup(l[1..], t)
  }

  predicate Proper<T(==)>(l: seq<Entry<T>>) {
    Distinct(l) && Sorted(l)
  }

  lemma {:induction false} LookupMember<T>(l: seq<Entry<T>>, t: T)
    ensures Lookup(l, t).Some? <==> exists i | 0 <= i < |l| :: l[i].timer == t
    ensures Lookup(l, t).Some? ==> Entry(t, Lookup(l, t).value) in l
  {
    if l != [] {
      LookupMember(l[1..], t);
      if Lookup(l[1..], t).Some? {
        var i :| 0 <= i < |l[1..]| && l[1..][i].timer == t;
        assert l[i + 1].timer == t;
      }
    }
  }

  lemma {:induction false} LookupAt<T>(l: seq<Entry<T>>, i: nat)
    requires Distinct(l) && i < |l|
    ensures Lookup(l, l[i].timer) == Some(l[i].deadline)
  {
    if i > 0 {
      LookupAt(l[1..], i - 1);
      assert l[i] == l[1..][i - 1];
    }
  }

  predicate InFront<T(==)>(e: Entry<T>, l: seq<Entry<T>>) {
    forall x | x in l :: e.deadline <= x.deadline && e.timer != x.timer
  }

  lemma ProperCons<T>(e: Entry<T>, l: seq<Entry<T>>)
    ensures Proper([e] + l) <==> InFront(e, l) && Proper(l)
  {
    var m := [e] + l;
    if Proper(m) {
      forall x | x in l ensures e.deadline <= x.deadline && e.timer != x.timer {
        var i :| 0 <= i < |l| && l[i] == x;
        assert m[0] == e && m[i + 1] == x;
      }
      forall i, j | 0 <= i < j < |l| ensures l[i].timer != l[j].timer && l[i].deadline <= l[j].deadline {
        assert m[i + 1] == l[i] && m[j + 1] == l[j];
      }
    }
  }

  // Removing a timer: it is gone, the others keep deadline and order, and an
  // absent timer changes nothing.
  lemma {:induction false} RemoveProper<T>(l: seq<Entry<T>>, t: T)
    requires Proper(l)
    ensures Proper(Remove(l, t)) && Lookup(Remove(l, t), t) == None
    ensures forall e | e in Remove(l, t) :: e in l
    ensures Lookup(l, t) == None ==> Remove(l, t) == l
  {
    if l != [] {
      assert l == [l[0]] + l[1..];
      ProperCons(l[0], l[1..]);
      if l[0].timer == t {
        LookupMember(l[1..], t);
      } else {
        RemoveProper(l[1..], t);
        ProperCons(l[0], Remove(l[1..], t));
      }
    }
  }

  lemma {:induction false} RemoveOthers<T>(l: seq<Entry<T>>, t: T, x: T)
    requires x != t
    ensures Lookup(Remove(l, t), x) == Lookup(l, x)
  {
    if l != [] {
      RemoveOthers(l[1..], t, x);
    }
  }

  lemma {:induction false} InsertProper<T>(l: seq<Entry<T>>, e: Entry<T>)
    requires Proper(l) && Lookup(l, e.timer) == None
    ensures Proper(Insert(l, e))
    ensures forall x | x in Insert(l, e) :: x == e || x in l
    ensures Remove(Insert(l, e), e.timer) == l
  {
    if l != [] {
      assert l == [l[0]] + l[1..];
      ProperCons(l[0], l[1..]);
    }
    if l != [] && l[0].deadline < e.deadline {
      InsertProper(l[1..], e);
      ProperCons(l[0], Insert(l[1..], e));
    } else {
      LookupMember(l, e.timer);
      ProperCons(e, l);
    }
  }

  lemma {:induction false} InsertLookup<T>(l: seq<Entry<T>>, e: Entry<T>, x: T)
    requires Lookup(l, e.timer) == None
    ensures Lookup(Insert(l, e), x) == if x == e.timer then Some(e.deadline) else Lookup(l, x)
  {
    if l != [] {
      InsertLookup(l[1..], e, x);
    }
  }

  // Every operation keeps the list sorted and free of duplicates.
  lemma CallProper<T>(l: seq<Entry<T>>, op: Op<T>)
    requires Proper(l)
    ensures Proper(Call(l, op))
  {
    RemoveProper(l, op.timer);
    if op.Start? {
      InsertProper(Remove(l, op.timer), Entry(op.timer, Deadline(op.now, op.timing)));
    }
  }

  // The map the list stands for: a start sets one deadline, a stop clears one.
  lemma CallLookup<T>(l: seq<Entry<T>>, op: Op<T>, x: T)
    requires Proper(l)
    ensures Lookup(Call(l, op), x) ==
              if x != op.timer then Lookup(l, x)
              else if op.Start? then Some(Deadline(op.now, op.timing))
              else None
    ensures op.Start? && op.now + op.timing < TWO_64 ==> Lookup(Call(l, op), op.timer) == Some(op.now + op.timing)
    ensures op.Start? && op.now < TWO_64 && op.timing < TWO_64 <= op.now + op.timing ==>
              Lookup(Call(l, op), op.timer) == Some(op.now + op.timing - TWO_64)
  {
    RemoveProper(l, op.timer);
    if x != op.timer {
      RemoveOthers(l, op.timer, x);
    }
    if op.Start? {
      InsertLookup(Remove(l, op.timer), Entry(op.timer, Deadline(op.now, op.timing)), x);
      InsertLookup(Remove(l, op.timer), Entry(op.timer, Deadline(op.now, op.timing)), op.timer);
    }
  }

  // The other timers keep their relative order.
  lemma CallKeepsOrder<T>(l: seq<Entry<T>>, op: Op<T>)
    requires Proper(l)
    ensures Remove(Call(l, op), op.timer) == Remove(l, op.timer)
  {
    RemoveProper(l, op.timer);
    if op.Start? {
      InsertProper(Remove(l, op.timer), Entry(op.timer, Deadline(op.now, op.timing)));
    } else {
      RemoveProper(Remove(l, op.timer), op.timer);
    }
  }

  // Of several calls about a timer, the last one counts.
  lemma {:induction false} LastCallCounts<T>(l: seq<Entry<T>>, ops: seq<Op<T>>, i: nat)
    requires Proper(l) && i < |ops| && forall j | i < j < |ops| :: ops[j].timer != ops[i].timer
    ensures var op := ops[i];
            Lookup(CallAll(l, ops), op.timer) == if op.Start? then Some(Deadline(op.now, op.timing)) else None
    decreases |ops|
  {
    CallProper(l, ops[0]);
    if i > 0 {
      assert ops[1..][i - 1] == ops[i];
      LastCallCounts(Call(l, ops[0]), ops[1..], i - 1);
    } else {
      CallLookup(l, ops[0], ops[0].timer);
      UncalledKept(Call(l, ops[0]), ops[1..], ops[0].timer);
    }
  }

  lemma {:induction false} UncalledKept<T>(l: seq<Entry<T>>, ops: seq<Op<T>>, x: T)
    requires Proper(l) && forall j | 0 <= j < |ops| :: ops[j].timer != x
    ensures Lookup(CallAll(l, ops), x) == Lookup(l, x)
    decreases |ops|
  {
    if ops != [] {
      CallProper(l, ops[0]);
      CallLookup(l, ops[0], x);
      UncalledKept(Call(l, ops[0]), ops[1..], x);
    }
  }

  /* ------------------------ equal deadlines: LIFO ------------------------- */

  // What may happen to the list over a whole run: calls, and the expiry of the
  // first timer.
  datatype Event<T> = Calls(op: Op<T>) | Expires

  function After<T(==)>(events: seq<Event<T>>): seq<Entry<T>> {
    if events == [] then []
    else
      var l := After(events[..|events| - 1]);
      match events[|events| - 1]
      case Calls(op) => Call(l, op)
      case Expires => if l == [] then [] else l[1..]
  }

  // When a timer was last started, counted in events.
  function LastStart<T(==)>(events: seq<Event<T>>, t: T): nat {
    if events == [] then 0
    else
      var e := events[|events| - 1];
      if e.Calls? && e.op.Start? && e.op.timer == t then |events| else LastStart(events[..|events| - 1], t)
  }

  // Earlier deadlines first, and of equal ones the later started first.
  predicate Before<T(==)>(events: seq<Event<T>>, a: Entry<T>, b: Entry<T>) {
    a.deadline < b.deadline
    || (a.deadline == b.deadline && LastStart(events, a.timer) > LastStart(events, b.timer))
  }

  predicate Lifo<T(==)>(events: seq<Event<T>>, l: seq<Entry<T>>) {
    forall i, j | 0 <= i < j < |l| :: Before(events, l[i], l[j])
  }

  lemma {:induction false} LastStartBound<T>(events: seq<Event<T>>, t: T)
    ensures LastStart(events, t) <= |events|
  {
    if events != [] {
      LastStartBound(events[..|events| - 1], t);
    }
  }

  lemma {:induction false} RemoveLifo<T>(events: seq<Event<T>>, l: seq<Entry<T>>, t: T)
    requires Lifo(events, l)
    ensures Lifo(events, Remove(l, t))
    ensures forall e | e in Remove(l, t) :: e in l
  {
    if l != [] {
      assert Lifo(events, l[1..]);
      RemoveLifo(events, l[1..], t);
      assert forall e | e in l[1..] :: Before(events, l[0], e);
    }
  }

  lemma {:induction false} InsertLifo<T>(events: seq<Event<T>>, l: seq<Entry<T>>, e: Entry<T>)
    requires Lifo(events, l)
    requires forall x | x in l :: LastStart(events, x.timer) < LastStart(events, e.timer)
    ensures Lifo(events, Insert(l, e))
    ensures forall x | x in Insert(l, e) :: x == e || x in l
  {
    if l == [] {
    } else if l[0].deadline >= e.deadline {
      forall x | x in l ensures Before(events, e, x) {
        assert x == l[0] || Before(events, l[0], x);
      }
    } else {
      assert Lifo(events, l[1..]);
      InsertLifo(events, l[1..], e);
      forall x | x in Insert(l[1..], e) ensures Before(events, l[0], x) {
      }
    }
  }

  // Over any run of starts, stops and expiries, the list is ordered by deadline
  // and, among equal deadlines, the most recently started timer is first.
  lemma {:induction false} RunIsLifo<T>(events: seq<Event<T>>)
    ensures Lifo(events, After(events)) && Proper(After(events))
  {
    if events != [] {
      var past, last := events[..|events| - 1], events[|events| - 1];
      var l := After(past);
      RunIsLifo(past);
      match last
      case Expires =>
        if l != [] {
          assert l == [l[0]] + l[1..];
          ProperCons(l[0], l[1..]);
          SameLifo(past, events, l[1..]);
        }
      case Calls(op) =>
        CallProper(l, op);
        RemoveLifo(past, l, op.timer);
        RemoveProper(l, op.timer);
        LookupMember(Remove(l, op.timer), op.timer);
        SameLifo(past, events, Remove(l, op.timer));
        if op.Start? {
          forall x | x in Remove(l, op.timer) ensures LastStart(events, x.timer) < LastStart(events, op.timer) {
            LastStartBound(past, x.timer);
          }
          InsertLifo(events, Remove(l, op.timer), Entry(op.timer, Deadline(op.now, op.timing)));
        }
    }
  }

  // The last event concerns none of these timers, or starts none.
  lemma SameLifo<T>(past: seq<Event<T>>, events: seq<Event<T>>, l: seq<Entry<T>>)
    requires events != [] && past == events[..|events| - 1] && Lifo(past, l)
    requires events[|events| - 1].Calls? && events[|events| - 1].op.Start? ==>
               forall e | e in l :: e.timer != events[|events| - 1].op.timer
    ensures Lifo(events, l)
  {
    forall i, j | 0 <= i < j < |l| ensures Before(events, l[i], l[j]) {
      assert Before(past, l[i], l[j]) && l[i] in l && l[j] in l;
    }
  }
}
