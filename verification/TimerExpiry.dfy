/**
One multiTimerYield: timers that are due are taken from the front of the list,
one after the other, and the callback of each may start and stop any timers.
The n-th callback makes the calls `script(n)`, an arbitrary finite list.
*/
module TimerExpiry {
  import opened Integers
  import opened TimerList

  type Script<!T> = nat -> seq<Op<T>>

  // A start inside a callback leads to a deadline after the sampled tick.
  predicate Later<T>(op: Op<T>, tick: nat) {
    op.Start? ==> Deadline(op.now, op.timing) > tick
  }

  predicate AllLater<T>(ops: seq<Op<T>>, tick: nat) {
    forall i | 0 <= i < |ops| :: Later(ops[i], tick)
  }

  ghost predicate Quiet<T>(script: Script<T>, tick: nat) {
    forall n: nat :: AllLater(script(n), tick)
  }

  // With a clock that does not go back, and no overflow, that is exactly so if
  // the clock moved on or the timing is at least 1.
  lemma LaterExactly<T>(op: Op<T>, tick: nat)
    requires op.Start? && tick <= op.now && op.now + op.timing < TWO_64
    ensures Later(op, tick) <==> op.now > tick || op.timing >= 1
  {
  }

  // So every callback is quiet that starts timers with a timing of at least 1
  // under a clock that does not go back, short of overflow.
  lemma ForwardStartsAreQuiet<T>(script: Script<T>, tick: nat)
    requires forall n: nat, i: nat | i < |script(n)| && script(n)[i].Start? ::
               tick <= script(n)[i].now && script(n)[i].timing >= 1 && script(n)[i].now + script(n)[i].timing < TWO_64
    ensures Quiet(script, tick)
  {
    forall n: nat, i | 0 <= i < |script(n)| ensures Later(script(n)[i], tick) {
    }
  }

  predicate Touches<T(==)>(ops: seq<Op<T>>, t: T) {
    exists i | 0 <= i < |ops| :: ops[i].timer == t
  }

  // The number of timers due at a tick.
  function Due<T>(l: seq<Entry<T>>, tick: nat): nat {
    if l == [] then 0 else (if l[0].deadline <= tick then 1 else 0) + Due(l[1..], tick)
  }

  lemma {:induction false} RemoveDue<T>(l: seq<Entry<T>>, t: T, tick: nat)
    ensures Due(Remove(l, t), tick) <= Due(l, tick)
  {
    if l != [] && l[0].timer != t {
      RemoveDue(l[1..], t, tick);
    }
  }

  lemma {:induction false} InsertDue<T>(l: seq<Entry<T>>, e: Entry<T>, tick: nat)
    requires e.deadline > tick
    ensures Due(Insert(l, e), tick) == Due(l, tick)
  {
    if l != [] && l[0].deadline < e.deadline {
      InsertDue(l[1..], e, tick);
    } else {
      assert ([e] + l)[1..] == l;
    }
  }

  lemma {:induction false} CallAllDue<T>(l: seq<Entry<T>>, ops: seq<Op<T>>, tick: nat)
    requires AllLater(ops, tick)
    ensures Due(CallAll(l, ops), tick) <= Due(l, tick)
    decreases |ops|
  {
    if ops != [] {
      var op := ops[0];
      assert Later(op, tick);
      RemoveDue(l, op.timer, tick);
      if op.Start? {
        InsertDue(Remove(l, op.timer), Entry(op.timer, Deadline(op.now, op.timing)), tick);
      }
      CallAllDue(Call(l, op), ops[1..], tick);
    }
  }

  // The timers fired, in order, and the list that is left.
  datatype Expiry<T> = Expiry(fired: seq<Entry<T>>, left: seq<Entry<T>>)

  // It ends because every firing leaves fewer timers due.
  ghost function Expire<T>(l: seq<Entry<T>>, tick: nat, script: Script<T>, n: nat): Expiry<T>
    requires Quiet(script, tick)
    decreases Due(l, tick)
  {
    if l == [] || l[0].deadline > tick then Expiry([], l)
    else
      CallAllDue(l[1..], script(n), tick);
      var rest := Expire(CallAll(l[1..], script(n)), tick, script, n + 1);
      Expiry([l[0]] + rest.fired, rest.left)
  }

  /* --------------------------- what a callback does ----------------------- */

  lemma {:induction false} CallAllProper<T>(l: seq<Entry<T>>, ops: seq<Op<T>>)
    requires Proper(l)
    ensures Proper(CallAll(l, ops))
    decreases |ops|
  {
    if ops != [] {
      CallProper(l, ops[0]);
      CallAllProper(Call(l, ops[0]), ops[1..]);
    }
  }

  // Timers a callback does not mention keep their deadline; of those it does
  // mention, none is due.
  lemma {:induction false} CallAllLookup<T>(l: seq<Entry<T>>, ops: seq<Op<T>>, x: T, tick: nat)
    requires Proper(l) && AllLater(ops, tick)
    ensures !Touches(ops, x) ==> Lookup(CallAll(l, ops), x) == Lookup(l, x)
    ensures Touches(ops, x) ==> DueAt(CallAll(l, ops), x, tick) == None
    decreases |ops|
  {
    if ops != [] {
      CallLookup(l, ops[0], x);
      CallProper(l, ops[0]);
      CallAllLookup(Call(l, ops[0]), ops[1..], x, tick);
      assert Later(ops[0], tick);
      assert Touches(ops, x) <==> ops[0].timer == x || Touches(ops[1..], x) by {
        if Touches(ops, x) {
          var i :| 0 <= i < |ops| && ops[i].timer == x;
          assert i > 0 ==> ops[1..][i - 1].timer == x;
        }
        if Touches(ops[1..], x) {
          var i :| 0 <= i < |ops[1..]| && ops[1..][i].timer == x;
          assert ops[i + 1].timer == x;
        }
      }
    }
  }

  // The deadline of a timer that is due.
  function DueAt<T(==)>(l: seq<Entry<T>>, x: T, tick: nat): Option<nat> {
    var d := Lookup(l, x);
    if d.Some? && d.value <= tick then d else None
  }

  /* ---------------------------- what a yield does ------------------------- */

  lemma TailProper<T>(l: seq<Entry<T>>)
    requires Proper(l) && l != []
    ensures Proper(l[1..]) && InFront(l[0], l[1..])
    ensures forall x :: Lookup(l, x) == if x == l[0].timer then Some(l[0].deadline) else Lookup(l[1..], x)
  {
    assert l == [l[0]] + l[1..];
    ProperCons(l[0], l[1..]);
  }

  predicate DueEntry<T(==)>(l: seq<Entry<T>>, e: Entry<T>, tick: nat) {
    DueAt(l, e.timer, tick) == Some(e.deadline)
  }

  // A timer due after a callback was due before, at the same deadline, and was
  // behind the timer that fired.
  lemma DueBefore<T>(l: seq<Entry<T>>, ops: seq<Op<T>>, e: Entry<T>, tick: nat)
    requires Proper(l) && l != [] && AllLater(ops, tick) && DueEntry(CallAll(l[1..], ops), e, tick)
    ensures DueEntry(l, e, tick) && e.timer != l[0].timer && l[0].deadline <= e.deadline
  {
    TailProper(l);
    CallAllLookup(l[1..], ops, e.timer, tick);
    LookupMember(l[1..], e.timer);
  }

  // No timer fires early or twice; they fire by deadline; what is left is
  // sorted, free of duplicates, and not due.
  lemma {:induction false} ExpireSound<T>(l: seq<Entry<T>>, tick: nat, script: Script<T>, n: nat)
    requires Proper(l) && Quiet(script, tick)
    ensures var r := Expire(l, tick, script, n);
            && Proper(r.left) && (r.left == [] || r.left[0].deadline > tick)
            && Proper(r.fired)
            && forall e | e in r.fired :: DueEntry(l, e, tick)
    decreases Due(l, tick)
  {
    if l != [] && l[0].deadline <= tick {
      var ops, e := script(n), l[0];
      assert AllLater(ops, tick);
      TailProper(l);
      CallAllDue(l[1..], ops, tick);
      CallAllProper(l[1..], ops);
      var l' := CallAll(l[1..], ops);
      ExpireSound(l', tick, script, n + 1);
      var rest := Expire(l', tick, script, n + 1);
      forall x | x in rest.fired ensures DueEntry(l, x, tick) && e.deadline <= x.deadline && e.timer != x.timer {
        DueBefore(l, ops, x, tick);
      }
      ProperCons(e, rest.fired);
    }
  }

  predicate Fires<T(==)>(fired: seq<Entry<T>>, x: T) {
    exists j | 0 <= j < |fired| :: fired[j].timer == x
  }

  // Callback n + i ran before x could fire, and stops or restarts x.
  predicate CancelledAt<T(==)>(fired: seq<Entry<T>>, script: Script<T>, n: nat, x: T, i: nat) {
    i < |fired| && Touches(script(n + i), x) && forall j | 0 <= j <= i :: fired[j].timer != x
  }

  ghost predicate Cancelled<T>(fired: seq<Entry<T>>, script: Script<T>, n: nat, x: T) {
    exists i: nat :: CancelledAt(fired, script, n, x, i)
  }

  lemma FiresLater<T>(e: Entry<T>, rest: seq<Entry<T>>, x: T)
    requires e.timer != x
    ensures Fires([e] + rest, x) <==> Fires(rest, x)
  {
    var fired := [e] + rest;
    if Fires(fired, x) {
      var j :| 0 <= j < |fired| && fired[j].timer == x;
      assert rest[j - 1].timer == x;
    }
    if Fires(rest, x) {
      var j :| 0 <= j < |rest| && rest[j].timer == x;
      assert fired[j + 1].timer == x;
    }
  }

  lemma CancelledLater<T>(e: Entry<T>, rest: seq<Entry<T>>, script: Script<T>, n: nat, x: T)
    requires e.timer != x && !Touches(script(n), x)
    ensures Cancelled([e] + rest, script, n, x) <==> Cancelled(rest, script, n + 1, x)
  {
    var fired, n' := [e] + rest, n + 1;
    if i: nat :| CancelledAt(fired, script, n, x, i) {
      assert i > 0;
      assert forall j | 0 <= j <= i - 1 :: rest[j] == fired[j + 1];
      assert CancelledAt(rest, script, n', x, i - 1);
    }
    if i: nat :| CancelledAt(rest, script, n', x, i) {
      assert forall j | 1 <= j <= i + 1 :: fired[j] == rest[j - 1];
      assert CancelledAt(fired, script, n, x, i + 1);
    }
  }

  // A timer that is not due at the tick does not fire.
  lemma NotDueNotFired<T>(l: seq<Entry<T>>, tick: nat, script: Script<T>, n: nat, x: T)
    requires Proper(l) && Quiet(script, tick) && DueAt(l, x, tick) == None
    ensures !Fires(Expire(l, tick, script, n).fired, x)
  {
    var fired := Expire(l, tick, script, n).fired;
    ExpireSound(l, tick, script, n);
    forall j | 0 <= j < |fired| ensures fired[j].timer != x {
      assert DueEntry(l, fired[j], tick);
    }
  }

  // A timer that is due fires, unless an earlier callback stopped or restarted it.
  lemma {:induction false} ExpireExact<T>(l: seq<Entry<T>>, tick: nat, script: Script<T>, n: nat, x: T)
    requires Proper(l) && Quiet(script, tick) && DueAt(l, x, tick).Some?
    ensures var fired := Expire(l, tick, script, n).fired;
            Fires(fired, x) <==> !Cancelled(fired, script, n, x)
    decreases Due(l, tick)
  {
    hide Call, CallAll, Remove, Insert, Distinct, Sorted, Cancelled, CancelledAt, Fires, Touches;
    LookupMember(l, x);
    var e, ops, l' := l[0], script(n), CallAll(l[1..], script(n));
    assert AllLater(ops, tick);
    TailProper(l);
    CallAllDue(l[1..], ops, tick);
    CallAllProper(l[1..], ops);
    CallAllLookup(l[1..], ops, x, tick);
    var rest := Expire(l', tick, script, n + 1).fired;
    if e.timer == x {
      FirstFires(e, rest, script, n);
    } else if Touches(ops, x) {
      NotDueNotFired(l', tick, script, n + 1, x);
      FiresLater(e, rest, x);
      FirstCancels(e, rest, script, n, x);
    } else {
      ExpireExact(l', tick, script, n + 1, x);
      FiresLater(e, rest, x);
      CancelledLater(e, rest, script, n, x);
    }
  }

  lemma FirstCancels<T>(e: Entry<T>, rest: seq<Entry<T>>, script: Script<T>, n: nat, x: T)
    requires e.timer != x && Touches(script(n), x)
    ensures Cancelled([e] + rest, script, n, x)
  {
    assert CancelledAt([e] + rest, script, n, x, 0);
  }

  lemma FirstFires<T>(e: Entry<T>, rest: seq<Entry<T>>, script: Script<T>, n: nat)
    ensures Fires([e] + rest, e.timer) && !Cancelled([e] + rest, script, n, e.timer)
  {
    assert ([e] + rest)[0].timer == e.timer;
  }

  // Callbacks n to m - 1 do not mention x.
  ghost predicate Unmentioned<T>(script: Script<T>, n: nat, m: nat, x: T) {
    forall k: nat | n <= k < m :: !Touches(script(k), x)
  }

  // A timer that is not due, and that no callback mentions, keeps its deadline.
  lemma {:induction false} ExpireKeeps<T>(l: seq<Entry<T>>, tick: nat, script: Script<T>, n: nat, x: T)
    requires Proper(l) && Quiet(script, tick) && DueAt(l, x, tick) == None
    requires Unmentioned(script, n, n + |Expire(l, tick, script, n).fired|, x)
    ensures Lookup(Expire(l, tick, script, n).left, x) == Lookup(l, x)
    decreases Due(l, tick)
  {
    if l != [] && l[0].deadline <= tick {
      var ops, l' := script(n), CallAll(l[1..], script(n));
      assert AllLater(ops, tick);
      TailProper(l);
      CallAllDue(l[1..], ops, tick);
      CallAllProper(l[1..], ops);
      CallAllLookup(l[1..], ops, x, tick);
      ExpireKeeps(l', tick, script, n + 1, x);
    }
  }

  /* -------------------- equal deadlines, over whole runs ------------------ */

  // The order of `Lifo`, up to the timers that are due.
  predicate DueLifo<T(==)>(events: seq<Event<T>>, l: seq<Entry<T>>, tick: nat) {
    forall i, j | 0 <= i < j < |l| && l[j].deadline <= tick :: Before(events, l[i], l[j])
  }

  predicate AheadOfDue<T(==)>(events: seq<Event<T>>, e: Entry<T>, l: seq<Entry<T>>, tick: nat) {
    forall x | x in l && x.deadline <= tick :: Before(events, e, x)
  }

  lemma DueLifoCons<T>(events: seq<Event<T>>, e: Entry<T>, l: seq<Entry<T>>, tick: nat)
    ensures DueLifo(events, [e] + l, tick) <==> AheadOfDue(events, e, l, tick) && DueLifo(events, l, tick)
  {
    var m := [e] + l;
    if DueLifo(events, m, tick) {
      forall x | x in l && x.deadline <= tick ensures Before(events, e, x) {
        var i :| 0 <= i < |l| && l[i] == x;
        assert m[0] == e && m[i + 1] == x;
      }
      forall i, j | 0 <= i < j < |l| && l[j].deadline <= tick ensures Before(events, l[i], l[j]) {
        assert m[i + 1] == l[i] && m[j + 1] == l[j];
      }
    }
  }

  lemma {:induction false} RemoveDueLifo<T>(events: seq<Event<T>>, l: seq<Entry<T>>, t: T, tick: nat)
    requires DueLifo(events, l, tick)
    ensures DueLifo(events, Remove(l, t), tick)
    ensures forall e | e in Remove(l, t) :: e in l
  {
    if l != [] {
      assert l == [l[0]] + l[1..];
      DueLifoCons(events, l[0], l[1..], tick);
      RemoveDueLifo(events, l[1..], t, tick);
      DueLifoCons(events, l[0], Remove(l[1..], t), tick);
    }
  }

  lemma {:induction false} InsertDueLifo<T>(events: seq<Event<T>>, l: seq<Entry<T>>, e: Entry<T>, tick: nat)
    requires DueLifo(events, l, tick) && Sorted(l) && e.deadline > tick
    ensures DueLifo(events, Insert(l, e), tick)
    ensures forall x | x in Insert(l, e) :: x == e || x in l
  {
    if l == [] || l[0].deadline >= e.deadline {
      DueLifoCons(events, e, l, tick);
    } else {
      assert l == [l[0]] + l[1..];
      DueLifoCons(events, l[0], l[1..], tick);
      InsertDueLifo(events, l[1..], e, tick);
      DueLifoCons(events, l[0], Insert(l[1..], e), tick);
    }
  }

  lemma {:induction false} CallAllDueLifo<T>(events: seq<Event<T>>, l: seq<Entry<T>>, ops: seq<Op<T>>, tick: nat)
    requires Proper(l) && DueLifo(events, l, tick) && AllLater(ops, tick)
    ensures DueLifo(events, CallAll(l, ops), tick)
    decreases |ops|
  {
    if ops != [] {
      var op := ops[0];
      assert Later(op, tick);
      RemoveProper(l, op.timer);
      RemoveDueLifo(events, l, op.timer, tick);
      if op.Start? {
        InsertDueLifo(events, Remove(l, op.timer), Entry(op.timer, Deadline(op.now, op.timing)), tick);
      }
      CallProper(l, op);
      CallAllDueLifo(events, Call(l, op), ops[1..], tick);
    }
  }

  lemma {:induction false} ExpireLifo<T>(events: seq<Event<T>>, l: seq<Entry<T>>, tick: nat, script: Script<T>, n: nat)
    requires Proper(l) && DueLifo(events, l, tick) && Quiet(script, tick)
    ensures Lifo(events, Expire(l, tick, script, n).fired)
    decreases Due(l, tick)
  {
    hide Call, CallAll, Remove, Insert, Lookup, Distinct, Sorted, DueLifo, Before;
    if l != [] && l[0].deadline <= tick {
      var ops := script(n);
      assert AllLater(ops, tick);
      assert l == [l[0]] + l[1..];
      TailProper(l);
      DueLifoCons(events, l[0], l[1..], tick);
      CallAllDue(l[1..], ops, tick);
      CallAllProper(l[1..], ops);
      CallAllDueLifo(events, l[1..], ops, tick);
      var l' := CallAll(l[1..], ops);
      ExpireLifo(events, l', tick, script, n + 1);
      ExpireSound(l', tick, script, n + 1);
      forall x | x in Expire(l', tick, script, n + 1).fired ensures Before(events, l[0], x) {
        FirstBefore(events, l, ops, x, tick);
      }
      LifoCons(events, l[0], Expire(l', tick, script, n + 1).fired);
    }
  }

  // The timer that fires first comes before those that fire later.
  lemma FirstBefore<T>(events: seq<Event<T>>, l: seq<Entry<T>>, ops: seq<Op<T>>, x: Entry<T>, tick: nat)
    requires Proper(l) && l != [] && AllLater(ops, tick) && DueEntry(CallAll(l[1..], ops), x, tick)
    requires AheadOfDue(events, l[0], l[1..], tick)
    ensures Before(events, l[0], x)
  {
    hide Call, CallAll, Before, Distinct, Sorted;
    TailProper(l);
    DueBefore(l, ops, x, tick);
    LookupMember(l[1..], x.timer);
  }

  lemma LifoCons<T>(events: seq<Event<T>>, e: Entry<T>, l: seq<Entry<T>>)
    requires Lifo(events, l) && forall x | x in l :: Before(events, e, x)
    ensures Lifo(events, [e] + l)
  {
    hide Before;
  }

  function CallEvents<T>(ops: seq<Op<T>>): seq<Event<T>>
    decreases |ops|
  {
    if ops == [] then [] else [Calls(ops[0])] + CallEvents(ops[1..])
  }

  // What happens to the list during a yield.
  ghost function Trace<T>(l: seq<Entry<T>>, tick: nat, script: Script<T>, n: nat): seq<Event<T>>
    requires Quiet(script, tick)
    decreases Due(l, tick)
  {
    if l == [] || l[0].deadline > tick then []
    else
      CallAllDue(l[1..], script(n), tick);
      [Expires] + CallEvents(script(n)) + Trace(CallAll(l[1..], script(n)), tick, script, n + 1)
  }

  lemma AfterOne<T>(events: seq<Event<T>>, e: Event<T>)
    ensures var l := After(events);
            After(events + [e]) == match e case Calls(op) => Call(l, op) case Expires => if l == [] then [] else l[1..]
  {
    assert (events + [e])[..|events|] == events;
  }

  lemma {:induction false} AfterCalls<T>(events: seq<Event<T>>, ops: seq<Op<T>>)
    ensures After(events + CallEvents(ops)) == CallAll(After(events), ops)
    decreases |ops|
  {
    hide After, Call;
    if ops == [] {
      assert events + CallEvents(ops) == events;
    } else {
      var first := events + [Calls(ops[0])];
      AfterOne(events, Calls(ops[0]));
      AfterCalls(first, ops[1..]);
      assert events + CallEvents(ops) == first + CallEvents(ops[1..]);
    }
  }

  lemma {:induction false} ExpireIsTrace<T>(events: seq<Event<T>>, tick: nat, script: Script<T>, n: nat)
    requires Quiet(script, tick)
    ensures After(events + Trace(After(events), tick, script, n)) == Expire(After(events), tick, script, n).left
    decreases Due(After(events), tick)
  {
    hide After, CallAll, CallEvents;
    var l := After(events);
    if l == [] || l[0].deadline > tick {
      assert events + Trace(l, tick, script, n) == events;
    } else {
      var ops, popped := script(n), events + [Expires];
      var called := popped + CallEvents(ops);
      assert AllLater(ops, tick);
      CallAllDue(l[1..], ops, tick);
      AfterOne(events, Expires);
      AfterCalls(popped, ops);
      ExpireIsTrace(called, tick, script, n + 1);
      assert Trace(l, tick, script, n) == [Expires] + CallEvents(ops) + Trace(After(called), tick, script, n + 1);
      assert events + Trace(l, tick, script, n) == called + Trace(After(called), tick, script, n + 1);
    }
  }

  // Whatever calls and expiries came before, a yield fires timers of equal
  // deadline most recently started first, and leaves a list that again comes
  // from calls and expiries.
  lemma YieldIsLifo<T>(events: seq<Event<T>>, tick: nat, script: Script<T>)
    requires Quiet(script, tick)
    ensures Lifo(events, Expire(After(events), tick, script, 0).fired)
    ensures Expire(After(events), tick, script, 0).left == After(events + Trace(After(events), tick, script, 0))
  {
    RunIsLifo(events);
    ExpireLifo(events, After(events), tick, script, 0);
    ExpireIsTrace(events, tick, script, 0);
  }

  // `Later` is what keeps the yield from running in circles: a timer that a
  // callback starts is due again at the sampled tick exactly when it fails.
  lemma DueAgainExactly<T>(l: seq<Entry<T>>, op: Op<T>, tick: nat)
    requires Proper(l) && op.Start?
    ensures DueAt(Call(l, op), op.timer, tick).Some? <==> !Later(op, tick)
  {
    CallLookup(l, op, op.timer);
  }

  /* ----------------------- callbacks without `Later` ---------------------- */

  // The firings of a yield, at most `most` of them, whatever the callbacks do.
  function Firings<T(==)>(l: seq<Entry<T>>, tick: nat, script: Script<T>, n: nat, most: nat): Expiry<T>
    decreases most
  {
    if most == 0 || l == [] || l[0].deadline > tick then Expiry([], l)
    else
      var rest := Firings(CallAll(l[1..], script(n)), tick, script, n + 1, most - 1);
      Expiry([l[0]] + rest.fired, rest.left)
  }

  // The yield ends, after at most that many firings.
  predicate Stops<T(==)>(l: seq<Entry<T>>, tick: nat, script: Script<T>, n: nat, most: nat) {
    var left := Firings(l, tick, script, n, most).left;
    left == [] || left[0].deadline > tick
  }

  // The bound does not matter once the yield ends within it.
  lemma {:induction false} FiringsEnough<T>(
    l: seq<Entry<T>>, tick: nat, script: Script<T>, n: nat, most: nat, more: nat)
    requires Stops(l, tick, script, n, most) && most <= more
    ensures Firings(l, tick, script, n, more) == Firings(l, tick, script, n, most)
    decreases most
  {
    if most > 0 && l != [] && l[0].deadline <= tick {
      FiringsEnough(CallAll(l[1..], script(n)), tick, script, n + 1, most - 1, more - 1);
    }
  }

  // If callbacks keep to `Later`, as many firings as there are timers due are
  // enough, and they are those of `Expire`.
  lemma {:induction false} LaterStops<T>(l: seq<Entry<T>>, tick: nat, script: Script<T>, n: nat, most: nat)
    requires Quiet(script, tick) && Due(l, tick) <= most
    ensures Stops(l, tick, script, n, most)
    ensures Firings(l, tick, script, n, most) == Expire(l, tick, script, n)
    decreases most
  {
    if l != [] && l[0].deadline <= tick {
      assert AllLater(script(n), tick);
      CallAllDue(l[1..], script(n), tick);
      LaterStops(CallAll(l[1..], script(n)), tick, script, n + 1, most - 1);
    }
  }

  // Whatever the callbacks do, no timer fires before its deadline, and the list
  // stays sorted and free of duplicates.
  lemma {:induction false} FiringsSound<T>(l: seq<Entry<T>>, tick: nat, script: Script<T>, n: nat, most: nat)
    requires Proper(l)
    ensures Proper(Firings(l, tick, script, n, most).left)
    ensures forall e | e in Firings(l, tick, script, n, most).fired :: e.deadline <= tick
    decreases most
  {
    if most > 0 && l != [] && l[0].deadline <= tick {
      TailProper(l);
      CallAllProper(l[1..], script(n));
      FiringsSound(CallAll(l[1..], script(n)), tick, script, n + 1, most - 1);
    }
  }

  // A callback that restarts its timer with timing 0 while the clock stands
  // still keeps the yield going for ever: after every number of firings the
  // timer is due.
  lemma {:induction false} NeverStops<T>(t: T, deadline: nat, tick: nat, script: Script<T>, n: nat, most: nat)
    requires deadline <= tick < TWO_64
    requires forall k: nat :: script(k) == [Op.Start(t, 0, tick)]
    ensures !Stops([Entry(t, deadline)], tick, script, n, most)
    ensures |Firings([Entry(t, deadline)], tick, script, n, most).fired| == most
    decreases most
  {
    if most > 0 {
      var l := [Entry(t, deadline)];
      var ops := script(n);
      assert l[1..] == [] && ops[1..] == [] && Call([], ops[0]) == [Entry(t, tick)];
      assert CallAll(l[1..], ops) == [Entry(t, tick)];
      NeverStops(t, tick, tick, script, n + 1, most - 1);
    }
  }

  /* ---------------------------- the return value -------------------------- */

  // Conversion of a 64-bit word to int.
  function ToInt(x: nat): int {
    var low := x % TWO_32;
    if low < TWO_31 then low else low - TWO_32
  }

  // uint64_t subtraction.
  function Distance(deadline: nat, tick: nat): nat {
    (deadline - tick) % TWO_64
  }

  function YieldResult<T>(left: seq<Entry<T>>, tick: nat): int {
    if left == [] then 0 else ToInt(Distance(left[0].deadline, tick))
  }

  // The result is the distance to the earliest deadline exactly when that is
  // below 2^31; it is 0 for a list that is not empty exactly when the distance
  // is a multiple of 2^32.
  lemma YieldResultExact<T>(left: seq<Entry<T>>, tick: nat)
    requires Proper(left) && left != [] && tick < left[0].deadline < TWO_64
    ensures var d := left[0].deadline - tick;
            && (YieldResult(left, tick) == d <==> d < TWO_31)
            && (YieldResult(left, tick) == 0 <==> d % TWO_32 == 0)
            && forall e | e in left :: d <= e.deadline - tick
  {
  }

  // In general the result is the one int that agrees with the distance modulo
  // 2^32.
  lemma YieldResultAgrees<T>(left: seq<Entry<T>>, tick: nat)
    requires left != [] && tick < left[0].deadline < TWO_64
    ensures 0 <= YieldResult(left, tick) + TWO_31 < TWO_32
    ensures (left[0].deadline - tick - YieldResult(left, tick)) % TWO_32 == 0
  {
    var d := left[0].deadline - tick;
    assert Distance(left[0].deadline, tick) == d;
    assert d == d / TWO_32 * TWO_32 + d % TWO_32;
    if d % TWO_32 >= TWO_31 {
      assert d - YieldResult(left, tick) == (d / TWO_32 + 1) * TWO_32;
    }
  }

  // All deadlines are below a bound, and so is what callbacks start.
  predicate Below<T(==)>(l: seq<Entry<T>>, bound: nat) {
    forall e | e in l :: e.deadline < bound
  }

  predicate StartsBelow<T>(ops: seq<Op<T>>, bound: nat) {
    forall i | 0 <= i < |ops| :: ops[i].Start? ==> Deadline(ops[i].now, ops[i].timing) < bound
  }

  ghost predicate ScriptBelow<T>(script: Script<T>, bound: nat) {
    forall n: nat :: StartsBelow(script(n), bound)
  }

  lemma {:induction false} RemoveKept<T>(l: seq<Entry<T>>, t: T)
    ensures forall e | e in Remove(l, t) :: e in l
  {
    if l != [] {
      RemoveKept(l[1..], t);
    }
  }

  lemma {:induction false} InsertKept<T>(l: seq<Entry<T>>, e: Entry<T>)
    ensures forall x | x in Insert(l, e) :: x == e || x in l
  {
    if l != [] && l[0].deadline < e.deadline {
      InsertKept(l[1..], e);
    }
  }

  lemma {:induction false} CallAllBelow<T>(l: seq<Entry<T>>, ops: seq<Op<T>>, bound: nat)
    requires Below(l, bound) && StartsBelow(ops, bound)
    ensures Below(CallAll(l, ops), bound)
    decreases |ops|
  {
    if ops != [] {
      var op := ops[0];
      RemoveKept(l, op.timer);
      if op.Start? {
        InsertKept(Remove(l, op.timer), Entry(op.timer, Deadline(op.now, op.timing)));
      }
      CallAllBelow(Call(l, op), ops[1..], bound);
    }
  }

  // Every timer left was there before, or was started by a callback.
  lemma {:induction false} FiringsBelow<T>(
    l: seq<Entry<T>>, tick: nat, script: Script<T>, n: nat, most: nat, bound: nat)
    requires Below(l, bound) && ScriptBelow(script, bound)
    ensures Below(Firings(l, tick, script, n, most).left, bound)
    decreases most
  {
    if most > 0 && l != [] && l[0].deadline <= tick {
      assert StartsBelow(script(n), bound);
      CallAllBelow(l[1..], script(n), bound);
      FiringsBelow(CallAll(l[1..], script(n)), tick, script, n + 1, most - 1, bound);
    }
  }

  // With every deadline less than 2^31 ticks away, the result of the yield is
  // the distance to the earliest deadline left, and 0 only if no timer is left.
  lemma YieldResultInTime<T>(l: seq<Entry<T>>, tick: nat, script: Script<T>, most: nat)
    requires Stops(l, tick, script, 0, most) && tick + TWO_31 <= TWO_64
    requires Below(l, tick + TWO_31) && ScriptBelow(script, tick + TWO_31)
    ensures var left := Firings(l, tick, script, 0, most).left;
            && (left != [] ==> YieldResult(left, tick) == left[0].deadline - tick)
            && (YieldResult(left, tick) == 0 <==> left == [])
  {
    FiringsBelow(l, tick, script, 0, most, tick + TWO_31);
    var left := Firings(l, tick, script, 0, most).left;
    assert left != [] ==> left[0] in left;
  }

  // The timers that are not due, at the end of a sorted list.
  function Undue<T>(l: seq<Entry<T>>, tick: nat): seq<Entry<T>> {
    if l == [] || l[0].deadline > tick then l else Undue(l[1..], tick)
  }

  lemma {:induction false} IdleFirings<T>(l: seq<Entry<T>>, tick: nat, script: Script<T>, n: nat)
    requires forall k: nat :: script(k) == []
    ensures Stops(l, tick, script, n, |l|) && Firings(l, tick, script, n, |l|).left == Undue(l, tick)
  {
    if l != [] && l[0].deadline <= tick {
      IdleFirings(l[1..], tick, script, n + 1);
      assert CallAll(l[1..], script(n)) == l[1..];
    }
  }

  // When callbacks start and stop nothing, the list before the yield decides:
  // the result is exact if and only if the first timer that is not due is less
  // than 2^31 ticks away.
  lemma IdleYieldExact<T>(l: seq<Entry<T>>, tick: nat, script: Script<T>)
    requires Proper(l) && Below(l, TWO_64) && Undue(l, tick) != []
    requires forall k: nat :: script(k) == []
    ensures var next, left := Undue(l, tick)[0].deadline, Firings(l, tick, script, 0, |l|).left;
            && left == Undue(l, tick)
            && (YieldResult(left, tick) == next - tick <==> next < tick + TWO_31)
            && (YieldResult(left, tick) == 0 <==> (next - tick) % TWO_32 == 0)
  {
    IdleFirings(l, tick, script, 0);
    UndueTail(l, tick);
    YieldResultExact(Undue(l, tick), tick);
  }

  lemma {:induction false} UndueTail<T>(l: seq<Entry<T>>, tick: nat)
    requires Proper(l)
    ensures Proper(Undue(l, tick)) && (Undue(l, tick) != [] ==> Undue(l, tick)[0].deadline > tick)
    ensures forall e | e in Undue(l, tick) :: e in l
  {
    if l != [] && l[0].deadline <= tick {
      TailProper(l);
      UndueTail(l[1..], tick);
    }
  }

  // The result can be 0 with a timer armed: start one timer with a timing of
  // 2^32, and yield at the same tick.
  lemma ZeroWithTimerArmed<T>(t: T, tick: nat, script: Script<T>, most: nat)
    requires tick + TWO_32 < TWO_64
    ensures var l := Call([], Op.Start(t, TWO_32, tick));
            && l == [Entry(t, tick + TWO_32)]
            && Stops(l, tick, script, 0, most) && Firings(l, tick, script, 0, most) == Expiry([], l)
            && YieldResult(l, tick) == 0
  {
    var l := Call([], Op.Start(t, TWO_32, tick));
    assert l == [Entry(t, tick + TWO_32)];
  }
}
