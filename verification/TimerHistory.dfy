/**
Histories of the timer list: starts, stops and yields, one after the other.
*/
module TimerHistory {
  import opened Integers
  import opened TimerList
  import opened TimerExpiry

  // What the program does: a call of its own, or a yield with its callbacks.
  datatype Turn<!T> = Act(op: Op<T>) | Yields(tick: nat, script: Script<T>)

  ghost predicate AllQuiet<T>(turns: seq<Turn<T>>) {
    forall i | 0 <= i < |turns| && turns[i].Yields? :: Quiet(turns[i].script, turns[i].tick)
  }

  // The list after a history, and the timers it fired, in order.
  ghost function ListAfter<T>(turns: seq<Turn<T>>): seq<Entry<T>>
    requires AllQuiet(turns)
  {
    if turns == [] then []
    else
      var l := ListAfter(turns[..|turns| - 1]);
      match turns[|turns| - 1]
      case Act(op) => Call(l, op)
      case Yields(tick, script) => Expire(l, tick, script, 0).left
  }

  // What turn i fires.
  ghost function FiredIn<T>(turns: seq<Turn<T>>, i: nat): seq<Entry<T>>
    requires AllQuiet(turns) && i < |turns|
  {
    var l := ListAfter(turns[..i]);
    match turns[i]
    case Act(op) => []
    case Yields(tick, script) => Expire(l, tick, script, 0).fired
  }

  ghost function FiredAfter<T>(turns: seq<Turn<T>>): seq<Entry<T>>
    requires AllQuiet(turns)
  {
    if turns == [] then []
    else FiredAfter(turns[..|turns| - 1]) + FiredIn(turns, |turns| - 1)
  }

  lemma {:induction false} ListProper<T>(turns: seq<Turn<T>>)
    requires AllQuiet(turns)
    ensures Proper(ListAfter(turns))
  {
    if turns != [] {
      var past, last := turns[..|turns| - 1], turns[|turns| - 1];
      ListProper(past);
      match last
      case Act(op) => CallProper(ListAfter(past), op);
      case Yields(tick, script) => ExpireSound(ListAfter(past), tick, script, 0);
    }
  }

  /* ------------------------- a start fires in time ------------------------ */

  // Turn i neither starts nor stops t, and is no yield at tick d or later.
  ghost predicate LeavesAlone<T>(turns: seq<Turn<T>>, i: nat, t: T, d: nat)
    requires AllQuiet(turns) && i < |turns|
  {
    match turns[i]
    case Act(op) => op.timer != t
    case Yields(tick, script) => tick < d && Unmentioned(script, 0, |FiredIn(turns, i)|, t)
  }

  lemma LeftAlone<T>(turns: seq<Turn<T>>, i: nat, t: T, d: nat)
    requires AllQuiet(turns) && i < |turns| && LeavesAlone(turns, i, t, d)
    requires Lookup(ListAfter(turns[..i]), t) == Some(d)
    ensures Lookup(ListAfter(turns[..i + 1]), t) == Some(d)
    ensures !Fires(FiredIn(turns, i), t)
  {
    var l := ListAfter(turns[..i]);
    ListProper(turns[..i]);
    assert turns[..i + 1][..i] == turns[..i];
    match turns[i]
    case Act(op) => CallLookup(l, op, t);
    case Yields(tick, script) =>
      NotDueNotFired(l, tick, script, 0, t);
      ExpireKeeps(l, tick, script, 0, t);
  }

  lemma {:induction false} StaysArmed<T>(turns: seq<Turn<T>>, h: nat, y: nat, t: T, d: nat)
    requires AllQuiet(turns) && h < y <= |turns|
    requires Lookup(ListAfter(turns[..h + 1]), t) == Some(d)
    requires forall i | h < i < y :: LeavesAlone(turns, i, t, d)
    ensures Lookup(ListAfter(turns[..y]), t) == Some(d)
    ensures forall i | h < i < y :: !Fires(FiredIn(turns, i), t)
  {
    hide ListAfter, FiredIn, LeavesAlone, Lookup, Fires, Quiet;
    if h + 1 < y {
      StaysArmed(turns, h, y - 1, t, d);
      LeftAlone(turns, y - 1, t, d);
    }
  }

  // The tick a start asks for, as far as a 64-bit word goes.
  function Requested<T>(op: Op<T>): nat
    requires op.Start? && op.now < TWO_64 && op.timing < TWO_64
  {
    if op.now + op.timing < TWO_64 then op.now + op.timing else op.now + op.timing - TWO_64
  }

  // A timer that is started, and not stopped or restarted since, does not fire
  // in any yield before the requested tick, and fires in the first yield that
  // reaches it, unless a callback of that yield stopped or restarted it before.
  lemma StartFiresInTime<T>(turns: seq<Turn<T>>, h: nat, y: nat)
    requires AllQuiet(turns) && h < y < |turns|
    requires turns[h].Act? && turns[h].op.Start? && turns[y].Yields?
    requires turns[h].op.now < TWO_64 && turns[h].op.timing < TWO_64
    requires Requested(turns[h].op) <= turns[y].tick
    requires forall i | h < i < y :: LeavesAlone(turns, i, turns[h].op.timer, Requested(turns[h].op))
    ensures var t := turns[h].op.timer;
            && (forall i | h < i < y :: !Fires(FiredIn(turns, i), t))
            && (Fires(FiredIn(turns, y), t) <==> !Cancelled(FiredIn(turns, y), turns[y].script, 0, t))
  {
    var op := turns[h].op;
    var t, d := op.timer, Requested(op);
    ListProper(turns[..h]);
    assert turns[..h + 1][..h] == turns[..h];
    CallLookup(ListAfter(turns[..h]), op, t);
    StaysArmed(turns, h, y, t, d);
    ListProper(turns[..y]);
    ExpireExact(ListAfter(turns[..y]), turns[y].tick, turns[y].script, 0, t);
  }

  /* ------------------------ a start fires only once ----------------------- */

  // The timers that the expiries among some events fire.
  function FiredOf<T(==)>(events: seq<Event<T>>): seq<Entry<T>> {
    if events == [] then []
    else
      var past := events[..|events| - 1];
      FiredOf(past) + if events[|events| - 1].Expires? && After(past) != [] then [After(past)[0]] else []
  }

  // A history as single events: its calls, and its yields with their callbacks.
  ghost function EventsOf<T>(turns: seq<Turn<T>>): seq<Event<T>>
    requires AllQuiet(turns)
  {
    if turns == [] then []
    else
      var past := turns[..|turns| - 1];
      EventsOf(past) + match turns[|turns| - 1]
                       case Act(op) => [Calls(op)]
                       case Yields(tick, script) => Trace(ListAfter(past), tick, script, 0)
  }

  lemma FiredOne<T>(events: seq<Event<T>>, e: Event<T>)
    ensures FiredOf(events + [e])
         == FiredOf(events) + if e.Expires? && After(events) != [] then [After(events)[0]] else []
  {
    assert (events + [e])[..|events|] == events;
  }

  lemma {:induction false} FiredCalls<T>(events: seq<Event<T>>, ops: seq<Op<T>>)
    ensures FiredOf(events + CallEvents(ops)) == FiredOf(events)
    decreases |ops|
  {
    hide After, FiredOf;
    if ops == [] {
      assert events + CallEvents(ops) == events;
    } else {
      var first := events + [Calls(ops[0])];
      FiredOne(events, Calls(ops[0]));
      FiredCalls(first, ops[1..]);
      assert events + CallEvents(ops) == first + CallEvents(ops[1..]);
    }
  }

  // The expiries among the events of a yield fire what the yield fires.
  lemma {:induction false} FiredTrace<T>(events: seq<Event<T>>, tick: nat, script: Script<T>, n: nat)
    requires Quiet(script, tick)
    ensures FiredOf(events + Trace(After(events), tick, script, n))
         == FiredOf(events) + Expire(After(events), tick, script, n).fired
    decreases Due(After(events), tick)
  {
    hide After, FiredOf, CallAll, CallEvents;
    var l := After(events);
    if l == [] || l[0].deadline > tick {
      assert events + Trace(l, tick, script, n) == events;
    } else {
      var ops, popped := script(n), events + [Expires];
      var called := popped + CallEvents(ops);
      assert AllLater(ops, tick);
      CallAllDue(l[1..], ops, tick);
      AfterOne(events, Expires);
      AfterCalls(popped, ops);
      FiredOne(events, Expires);
      FiredCalls(popped, ops);
      FiredTrace(called, tick, script, n + 1);
      assert Trace(l, tick, script, n) == [Expires] + CallEvents(ops) + Trace(After(called), tick, script, n + 1);
      assert events + Trace(l, tick, script, n) == called + Trace(After(called), tick, script, n + 1);
    }
  }

  // Every history comes down to events: the same list, the same firings.
  lemma {:induction false} HistoryIsEvents<T>(turns: seq<Turn<T>>)
    requires AllQuiet(turns)
    ensures After(EventsOf(turns)) == ListAfter(turns)
    ensures FiredOf(EventsOf(turns)) == FiredAfter(turns)
  {
    hide After, FiredOf;
    if turns == [] {
      NoEvents<T>();
    } else {
      var past, last := turns[..|turns| - 1], turns[|turns| - 1];
      var events := EventsOf(past);
      HistoryIsEvents(past);
      match last
      case Act(op) =>
        AfterOne(events, Calls(op));
        FiredOne(events, Calls(op));
      case Yields(tick, script) =>
        ExpireIsTrace(events, tick, script, 0);
        FiredTrace(events, tick, script, 0);
    }
  }

  lemma NoEvents<T>()
    ensures After<T>([]) == [] && FiredOf<T>([]) == []
  {
  }

  // Event j fires t, or starts it.
  predicate FiresAt<T(==)>(events: seq<Event<T>>, j: nat, t: T) {
    j < |events| && events[j].Expires? && After(events[..j]) != [] && After(events[..j])[0].timer == t
  }

  predicate StartsAt<T(==)>(events: seq<Event<T>>, j: nat, t: T) {
    j < |events| && events[j].Calls? && events[j].op.Start? && events[j].op.timer == t
  }

  // A timer that is not armed stays so until it is started.
  lemma {:induction false} StaysUnarmed<T>(events: seq<Event<T>>, i: nat, j: nat, t: T)
    requires i <= j <= |events| && Lookup(After(events[..i]), t) == None
    requires forall n | i <= n < j :: !StartsAt(events, n, t)
    ensures Lookup(After(events[..j]), t) == None
  {
    if i < j {
      StaysUnarmed(events, i, j - 1, t);
      RunIsLifo(events[..j - 1]);
      assert events[..j] == events[..j - 1] + [events[j - 1]];
      assert !StartsAt(events, j - 1, t);
      OneEvent(events[..j - 1], events[j - 1], t);
    }
  }

  lemma OneEvent<T>(events: seq<Event<T>>, e: Event<T>, t: T)
    requires Proper(After(events)) && Lookup(After(events), t) == None
    requires !(e.Calls? && e.op.Start? && e.op.timer == t)
    ensures Lookup(After(events + [e]), t) == None
  {
    hide After;
    var l := After(events);
    AfterOne(events, e);
    match e
    case Calls(op) => CallLookup(l, op, t);
    case Expires =>
      if l != [] {
        TailProper(l);
      }
  }

  // What fired is not armed any more, and what fires is.
  lemma FiredIsUnarmed<T>(events: seq<Event<T>>, j: nat, t: T)
    requires FiresAt(events, j, t)
    ensures Lookup(After(events[..j]), t).Some? && Lookup(After(events[..j + 1]), t) == None
  {
    hide After;
    var l := After(events[..j]);
    RunIsLifo(events[..j]);
    AfterOne(events[..j], Expires);
    assert events[..j + 1] == events[..j] + [Expires];
    TailProper(l);
    LookupMember(l[1..], t);
  }

  // Every firing has a start of its own: there is one before the first firing
  // of a timer, and one between any two of them.
  lemma EachFiringHasItsStart<T>(events: seq<Event<T>>, i: nat, j: nat, t: T)
    requires FiresAt(events, j, t) && (i == 0 || (i <= j && FiresAt(events, i - 1, t)))
    ensures exists n | i <= n < j :: StartsAt(events, n, t)
  {
    FiredIsUnarmed(events, j, t);
    if i > 0 {
      FiredIsUnarmed(events, i - 1, t);
    } else {
      NoEvents<T>();
      assert events[..0] == [];
    }
    if forall n | i <= n < j :: !StartsAt(events, n, t) {
      StaysUnarmed(events, i, j, t);
    }
  }
}
