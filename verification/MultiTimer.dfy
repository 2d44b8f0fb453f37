/**
`src/MultiTimer.c` on the heap: an intrusive singly linked list that is relinked
in place.  Each operation is proved equal to its counterpart on values.
*/
module MultiTimers {
  import opened Integers
  import opened TimerList
  import opened TimerExpiry

  // MultiTimer.  The callback is NULL or not; 0 stands for NULL.
  class Timer {
    var next: Timer?
    var deadline: nat
    var callback: nat
    var userData: nat

    constructor ()
    {
      next, deadline, callback, userData := null, 0, 0, 0;
    }
  }

  function Entries(nodes: seq<Timer>): (l: seq<Entry<Timer>>)
    reads nodes
    ensures |l| == |nodes|
    ensures forall i | 0 <= i < |l| :: l[i] == Entry(nodes[i], nodes[i].deadline)
  {
    seq(|nodes|, i requires 0 <= i < |nodes| reads nodes => Entry(nodes[i], nodes[i].deadline))
  }

  // Following `next` from `first` visits exactly these nodes.
  predicate Linked(first: Timer?, nodes: seq<Timer>)
    reads (set n | n in nodes)`next
  {
    && first == Slot(nodes, 0)
    && forall i | 0 <= i < |nodes| :: nodes[i].next == Slot(nodes, i + 1)
  }

  function Slot(nodes: seq<Timer>, i: nat): Timer? {
    if i < |nodes| then nodes[i] else null
  }

  predicate NoRepeats(nodes: seq<Timer>) {
    forall i, j | 0 <= i < j < |nodes| :: nodes[i] != nodes[j]
  }

  // What multiTimerStart leaves in a node.
  predicate Armed(nodes: seq<Timer>)
    reads (set n | n in nodes)`deadline, (set n | n in nodes)`callback
  {
    forall n | n in nodes :: n.deadline < TWO_64 && n.callback != 0
  }

  predicate Within(nodes: seq<Timer>, others: seq<Timer>) {
    forall n | n in nodes :: n in others
  }

  /* --------------------- the spec functions by position ------------------- */

  lemma {:induction false} RemoveAt<T>(l: seq<Entry<T>>, t: T, i: nat)
    requires i <= |l| && forall j | 0 <= j < i :: l[j].timer != t
    requires i < |l| ==> l[i].timer == t
    ensures Remove(l, t) == if i < |l| then l[..i] + l[i + 1..] else l
  {
    if i > 0 {
      RemoveAt(l[1..], t, i - 1);
      assert l[1..][..i - 1] == l[1..i];
      if i < |l| {
        assert l[1..][i..] == l[i + 1..];
      }
    }
  }

  lemma {:induction false} InsertAt<T>(l: seq<Entry<T>>, e: Entry<T>, i: nat)
    requires i <= |l| && forall j | 0 <= j < i :: l[j].deadline < e.deadline
    requires i < |l| ==> l[i].deadline >= e.deadline
    ensures Insert(l, e) == l[..i] + [e] + l[i..]
  {
    if i > 0 {
      InsertAt(l[1..], e, i - 1);
      assert l[1..][..i - 1] == l[1..i] && l[1..][i - 1..] == l[i..];
    }
  }

  lemma ProperEntries(nodes: seq<Timer>)
    requires NoRepeats(nodes) && Sorted(Entries(nodes))
    ensures Proper(Entries(nodes))
  {
  }

  lemma ArmedWithin(nodes: seq<Timer>, others: seq<Timer>)
    requires Within(nodes, others) && Armed(others)
    ensures Armed(nodes)
  {
  }

  lemma ArmedAlso(nodes: seq<Timer>, others: seq<Timer>, timer: Timer)
    requires Within(nodes, others + [timer]) && Armed(others) && timer.deadline < TWO_64 && timer.callback != 0
    ensures Armed(nodes)
  {
  }

  lemma WithinAlso(nodes: seq<Timer>, rest: seq<Timer>, others: seq<Timer>, timer: Timer)
    requires Within(nodes, rest + [timer]) && Within(rest, others)
    ensures Within(nodes, others + [timer])
  {
  }

  lemma EntriesInsert(nodes: seq<Timer>, i: nat, timer: Timer)
    requires i <= |nodes|
    ensures Entries(nodes[..i] + [timer] + nodes[i..])
         == Entries(nodes)[..i] + [Entry(timer, timer.deadline)] + Entries(nodes)[i..]
  {
  }

  lemma NoRepeatsInsert(nodes: seq<Timer>, i: nat, timer: Timer)
    requires i <= |nodes| && NoRepeats(nodes) && timer !in nodes
    ensures NoRepeats(nodes[..i] + [timer] + nodes[i..])
  {
    var after := nodes[..i] + [timer] + nodes[i..];
    forall j, k | 0 <= j < k < |after| ensures after[j] != after[k] {
      if j == i {
        assert after[k] == nodes[k - 1];
      } else if k == i {
        assert after[j] == nodes[j];
      } else {
        assert after[j] == nodes[if j < i then j else j - 1] && after[k] == nodes[if k < i then k else k - 1];
      }
    }
  }

  // A node stored between positions i - 1 and i.
  lemma LinkedInsert(first: Timer?, nodes: seq<Timer>, i: nat, timer: Timer)
    requires i <= |nodes| && first == (if i == 0 then timer else Slot(nodes, 0)) && timer.next == Slot(nodes, i)
    requires forall j | 0 <= j < |nodes| :: nodes[j].next == if j + 1 == i then timer else Slot(nodes, j + 1)
    ensures Linked(first, nodes[..i] + [timer] + nodes[i..])
  {
    var after := nodes[..i] + [timer] + nodes[i..];
    forall j | 0 <= j < |after| ensures after[j].next == Slot(after, j + 1) {
      if j < i {
        assert after[j] == nodes[j];
      } else if j > i {
        assert after[j] == nodes[j - 1];
      }
    }
  }

  // The node at position i bypassed.
  lemma LinkedRemove(first: Timer?, nodes: seq<Timer>, i: nat)
    requires i < |nodes| && first == if i == 0 then Slot(nodes, 1) else Slot(nodes, 0)
    requires forall j | 0 <= j < |nodes| && j != i :: nodes[j].next == if j + 1 == i then Slot(nodes, i + 1) else Slot(nodes, j + 1)
    ensures Linked(first, nodes[..i] + nodes[i + 1..])
  {
    var after := nodes[..i] + nodes[i + 1..];
    forall j | 0 <= j < |after| ensures after[j].next == Slot(after, j + 1) {
      if j < i {
        assert after[j] == nodes[j];
      } else {
        assert after[j] == nodes[j + 1];
      }
    }
  }

  // The node before position i is at no other position.
  lemma OnlyPrevious(nodes: seq<Timer>, i: nat)
    requires NoRepeats(nodes) && i <= |nodes|
    ensures i > 0 ==> forall j | 0 <= j < |nodes| && j + 1 != i :: nodes[j] != nodes[i - 1]
  {
  }

  // The list without its first node.
  lemma TailValid(first: Timer?, nodes: seq<Timer>)
    requires Linked(first, nodes) && NoRepeats(nodes) && Sorted(Entries(nodes)) && Armed(nodes) && nodes != []
    ensures Linked(nodes[0].next, nodes[1..]) && NoRepeats(nodes[1..]) && Armed(nodes[1..])
    ensures Entries(nodes[1..]) == Entries(nodes)[1..] && Sorted(Entries(nodes[1..])) && Within(nodes[1..], nodes)
  {
    var rest := nodes[1..];
    assert forall i | 0 <= i < |rest| :: rest[i] == nodes[i + 1];
    assert Entries(rest) == Entries(nodes)[1..];
  }

  lemma NoRepeatsRemove(nodes: seq<Timer>, i: nat)
    requires i < |nodes| && NoRepeats(nodes)
    ensures NoRepeats(nodes[..i] + nodes[i + 1..])
    ensures nodes[i] !in nodes[..i] + nodes[i + 1..]
  {
    var after := nodes[..i] + nodes[i + 1..];
    assert forall j | 0 <= j < |after| :: after[j] == nodes[if j < i then j else j + 1];
  }

  lemma EntriesRemove(nodes: seq<Timer>, i: nat)
    requires i < |nodes|
    ensures Entries(nodes[..i] + nodes[i + 1..]) == Entries(nodes)[..i] + Entries(nodes)[i + 1..]
  {
  }

  // The static variables of the module.
  class TimerModule {
    var timerList: Timer?
    var installed: bool            // platformTicksFunction != NULL
    ghost var nodes: seq<Timer>

    ghost predicate Valid()
      reads this, nodes
    {
      && Linked(timerList, nodes) && NoRepeats(nodes)
      && Sorted(Entries(nodes))
      && Armed(nodes)
    }

    constructor ()
      ensures Valid() && nodes == [] && !installed
    {
      timerList, installed, nodes := null, false, [];
    }

    // multiTimerInstall.
    method Install(ticksFunc: bool) returns (rc: int)
      modifies this`installed
      ensures rc == (if ticksFunc then 0 else -1) && installed == (ticksFunc || old(installed))
    {
      if !ticksFunc {
        return -1;
      }
      installed := true;
      return 0;
    }

    lemma HeadIsFirst()
      requires Valid()
      ensures timerList == Slot(nodes, 0)
    {
    }

    lemma HeadIsArmed()
      requires Valid()
      ensures nodes != [] ==> nodes[0].deadline < TWO_64
    {
    }

    // *current, for a pointer into the list: the head, or the field of a node.
    function Deref(current: Timer?): Timer?
      reads this, if current == null then {} else {current}
    {
      if current == null then timerList else current.next
    }

    // `current` is the pointer into the list at position i.
    ghost predicate PointsAt(current: Timer?, i: nat)
      reads this
    {
      i <= |nodes| && current == if i == 0 then null else nodes[i - 1]
    }

    // *current = timer->next, for the node at position i.
    method Unlink(current: Timer?, timer: Timer, ghost i: nat)
      requires Linked(timerList, nodes) && NoRepeats(nodes) && PointsAt(current, i) && i < |nodes| && nodes[i] == timer
      modifies this`timerList, this`nodes, nodes`next
      ensures nodes == old(nodes[..i] + nodes[i + 1..])
      ensures Linked(timerList, nodes) && NoRepeats(nodes) && timer !in nodes
      ensures Entries(nodes) == old(Entries(nodes)[..i] + Entries(nodes)[i + 1..])
    {
      hide NoRepeats;
      ghost var l := Entries(nodes);
      OnlyPrevious(nodes, i);
      if current == null {
        timerList := timer.next;
      } else {
        current.next := timer.next;
      }
      assert Entries(nodes) == l;
      EntriesRemove(nodes, i);
      LinkedRemove(timerList, nodes, i);
      NoRepeatsRemove(nodes, i);
      nodes := nodes[..i] + nodes[i + 1..];
    }

    // removeTimer.
    method RemoveTimer(timer: Timer?)
      requires Linked(timerList, nodes) && NoRepeats(nodes)
      modifies this`timerList, this`nodes, nodes`next
      ensures Linked(timerList, nodes) && NoRepeats(nodes)
      ensures timer == null ==> nodes == old(nodes) && Entries(nodes) == old(Entries(nodes))
      ensures timer != null ==> Entries(nodes) == Remove(old(Entries(nodes)), timer)
      ensures Within(nodes, old(nodes)) && timer !in nodes
    {
      var current: Timer? := null;
      ghost var i, l := 0, Entries(nodes);
      while Deref(current) != null
        invariant PointsAt(current, i) && Linked(timerList, nodes) && nodes == old(nodes)
        invariant Entries(nodes) == l && forall j | 0 <= j < i :: nodes[j] != timer
        decreases |nodes| - i
      {
        assert Deref(current) == nodes[i];
        if Deref(current) == timer {
          RemoveAt(l, timer, i);
          Unlink(current, timer, i);
          return;
        }
        current := Deref(current);
        i := i + 1;
      }
      if timer != null {
        RemoveAt(l, timer, i);
      }
    }

    // timer->next = *current; *current = timer, at position i.
    method Link(current: Timer?, timer: Timer, ghost i: nat)
      requires Linked(timerList, nodes) && NoRepeats(nodes) && PointsAt(current, i) && timer !in nodes
      modifies this`timerList, this`nodes, nodes`next, timer`next
      ensures nodes == old(nodes[..i] + [timer] + nodes[i..])
      ensures Linked(timerList, nodes) && NoRepeats(nodes)
      ensures Entries(nodes) == old(Entries(nodes)[..i] + [Entry(timer, timer.deadline)] + Entries(nodes)[i..])
    {
      hide NoRepeats;
      ghost var l := Entries(nodes);
      OnlyPrevious(nodes, i);
      assert Deref(current) == Slot(nodes, i);
      timer.next := Deref(current);
      if current == null {
        timerList := timer;
      } else {
        current.next := timer;
      }
      assert Entries(nodes) == l;
      EntriesInsert(nodes, i, timer);
      LinkedInsert(timerList, nodes, i, timer);
      NoRepeatsInsert(nodes, i, timer);
      nodes := nodes[..i] + [timer] + nodes[i..];
    }

    // multiTimerStart; `now` is what the platform's tick function returns.
    method Start(timer: Timer?, timing: nat, callback: nat, userData: nat, now: nat) returns (rc: int)
      requires Valid() && timing < TWO_64 && now < TWO_64
      modifies this`timerList, this`nodes, nodes`next, if timer == null then {} else {timer}
      ensures rc == if timer == null || callback == 0 || !installed then -1 else 0
      ensures rc == -1 ==> nodes == old(nodes) && Entries(nodes) == old(Entries(nodes))
      ensures rc == 0 ==> Entries(nodes) == Arm(old(Entries(nodes)), timer, Deadline(now, timing))
      ensures rc == 0 && now + timing < TWO_64 ==> timer.deadline == now + timing
      ensures rc == 0 && now + timing >= TWO_64 ==> timer.deadline == now + timing - TWO_64
      ensures rc == 0 ==> timer.callback == callback && timer.userData == userData
      ensures Valid() && Within(nodes, if timer == null then old(nodes) else old(nodes) + [timer])
    {
      if timer == null || callback == 0 || !installed {
        return -1;
      }
      Rearm(timer, timing, callback, userData, now);
      DeadlineAt(now, timing);
      return 0;
    }

    method Rearm(timer: Timer, timing: nat, callback: nat, userData: nat, now: nat)
      requires Valid() && callback != 0
      modifies this`timerList, this`nodes, nodes`next, timer
      ensures Entries(nodes) == Arm(old(Entries(nodes)), timer, Deadline(now, timing))
      ensures timer.deadline == Deadline(now, timing)
      ensures timer.callback == callback && timer.userData == userData
      ensures Valid() && Within(nodes, old(nodes) + [timer])
    {
      hide Linked, NoRepeats, Distinct, Sorted, Remove, Insert, Armed;
      ghost var before, l := nodes, Entries(nodes);
      ProperEntries(nodes);
      CallProper(l, Op.Start(timer, timing, now));
      RemoveTimer(timer);
      ghost var rest := nodes;
      ArmedWithin(rest, before);
      timer.deadline := (now + timing) % TWO_64;
      timer.callback := callback;
      timer.userData := userData;
      assert Entries(rest) == Remove(l, timer);
      assert forall i | 0 <= i < |rest| :: rest[i] in before;
      Place(timer);
      ArmedAlso(nodes, rest, timer);
      WithinAlso(nodes, rest, before, timer);
    }

    // The insertion loop of multiTimerStart.
    method Place(timer: Timer)
      requires Linked(timerList, nodes) && NoRepeats(nodes) && timer !in nodes
      modifies this`timerList, this`nodes, nodes`next, timer`next
      ensures Linked(timerList, nodes) && NoRepeats(nodes)
      ensures Entries(nodes) == Insert(old(Entries(nodes)), Entry(timer, timer.deadline))
      ensures Within(nodes, old(nodes) + [timer])
    {
      var current: Timer? := null;
      ghost var i, l := 0, Entries(nodes);
      while Deref(current) != null && Deref(current).deadline < timer.deadline
        invariant PointsAt(current, i) && Linked(timerList, nodes) && nodes == old(nodes)
        invariant Entries(nodes) == l && forall j | 0 <= j < i :: nodes[j].deadline < timer.deadline
        decreases |nodes| - i
      {
        assert Deref(current) == nodes[i];
        current := Deref(current);
        i := i + 1;
      }
      assert Deref(current) == Slot(nodes, i);
      InsertAt(l, Entry(timer, timer.deadline), i);
      Link(current, timer, i);
    }

    // multiTimerStop.
    method Stop(timer: Timer?) returns (rc: int)
      requires Valid()
      modifies this`timerList, this`nodes, nodes`next
      ensures rc == 0 && Valid() && Within(nodes, old(nodes))
      ensures timer == null ==> Entries(nodes) == old(Entries(nodes))
      ensures timer != null ==> Entries(nodes) == Remove(old(Entries(nodes)), timer)
    {
      hide Linked, NoRepeats, Distinct, Sorted, Remove, Armed, Within;
      ghost var before, l := nodes, Entries(nodes);
      if timer != null {
        ProperEntries(nodes);
        CallProper(l, Op.Stop(timer));
      }
      RemoveTimer(timer);
      ArmedWithin(nodes, before);
      return 0;
    }

    // The pop at the head of the loop of multiTimerYield.  The node keeps a
    // stale `next`.
    method Pop() returns (timer: Timer)
      requires Valid() && nodes != []
      modifies this`timerList, this`nodes
      ensures Valid() && timer == old(nodes[0]) && Within(nodes, old(nodes))
      ensures Entries(nodes) == old(Entries(nodes)[1..])
    {
      hide Linked, NoRepeats, Distinct, Sorted, Armed, Within;
      HeadIsFirst();
      TailValid(timerList, nodes);
      timer := timerList;
      timerList := timer.next;
      nodes := nodes[1..];
    }

    // One call made by a callback, with some callback of its own.
    method RunCall(op: Op<Timer>, ghost pool: set<Timer>)
      requires Valid() && installed && InPool(nodes, pool) && CallsInPool([op], pool)
      modifies this`timerList, this`nodes, pool
      ensures Valid() && InPool(nodes, pool) && Entries(nodes) == Call(old(Entries(nodes)), op)
    {
      hide Linked, NoRepeats, Sorted, Armed, Remove, Insert;
      assert op in [op];
      ghost var before := nodes;
      if op.Start? {
        var rc := Start(op.timer, op.timing, 1, 0, op.now);
      } else {
        var rc := Stop(op.timer);
      }
      PoolAlso(nodes, before, op.timer, pool);
    }

    // A callback: the calls it makes.
    method RunCallback(calls: seq<Op<Timer>>, ghost pool: set<Timer>)
      requires Valid() && installed && InPool(nodes, pool) && CallsInPool(calls, pool)
      modifies this`timerList, this`nodes, pool
      ensures Valid() && InPool(nodes, pool)
      ensures Entries(nodes) == CallAll(old(Entries(nodes)), calls)
    {
      hide Valid, InPool, Call;
      ghost var l := Entries(nodes);
      var rest := calls;
      while rest != []
        invariant Valid() && InPool(nodes, pool) && CallsInPool(rest, pool)
        invariant CallAll(Entries(nodes), rest) == CallAll(l, calls)
        decreases |rest|
      {
        RunCall(rest[0], pool);
        rest := rest[1..];
      }
    }

    // The timers fired so far, followed by those that are still to fire, at most
    // `most`, are the ones of `whole`, and then the yield ends.
    ghost predicate Underway(whole: Expiry<Timer>, fired: seq<Entry<Timer>>, tick: nat, script: Script<Timer>, n: nat, most: nat)
      reads this, nodes
    {
      && whole == Following(fired, Firings(Entries(nodes), tick, script, n, most))
      && Stops(Entries(nodes), tick, script, n, most)
    }

    // The body of the loop of multiTimerYield.
    method FireFirst(calls: seq<Op<Timer>>, ghost pool: set<Timer>) returns (e: Entry<Timer>)
      requires Valid() && installed && InPool(nodes, pool) && nodes != [] && CallsInPool(calls, pool)
      modifies this`timerList, this`nodes, pool
      ensures Valid() && InPool(nodes, pool)
      ensures e == old(Entries(nodes)[0]) && Entries(nodes) == CallAll(old(Entries(nodes)[1..]), calls)
    {
      var timer := Pop();
      e := Entry(timer, timer.deadline);
      if timer.callback != 0 {
        RunCallback(calls, pool);
      }
    }

    method FireNext(tick: nat, script: Script<Timer>, n: nat, fired: seq<Entry<Timer>>,
                    ghost most: nat, ghost pool: set<Timer>, ghost whole: Expiry<Timer>)
      returns (e: Entry<Timer>)
      requires Valid() && installed && InPool(nodes, pool) && CallsInPool(script(n), pool)
      requires nodes != [] && nodes[0].deadline <= tick && Underway(whole, fired, tick, script, n, most)
      modifies this`timerList, this`nodes, pool
      ensures Valid() && InPool(nodes, pool)
      ensures most > 0 && Underway(whole, fired + [e], tick, script, n + 1, most - 1)
    {
      hide Firings, Stops, Valid, InPool, CallAll, CallsInPool, Following;
      FiringsStep(Entries(nodes), tick, script, n, most, fired);
      e := FireFirst(script(n), pool);
    }

    lemma UnderwayEnds(whole: Expiry<Timer>, fired: seq<Entry<Timer>>, tick: nat, script: Script<Timer>, n: nat, most: nat)
      requires Underway(whole, fired, tick, script, n, most) && (nodes == [] || nodes[0].deadline > tick)
      ensures whole == Expiry(fired, Entries(nodes))
    {
      assert fired + [] == fired;
    }

    // multiTimerYield.  `tick` is what the platform's tick function returns
    // first, and `script` the calls that the callbacks will make.  The loop has
    // to end; `most` bounds the number of firings.
    method Yield(tick: nat, script: Script<Timer>, ghost most: nat, ghost pool: set<Timer>)
      returns (rc: int, fired: seq<Entry<Timer>>)
      requires Valid() && InPool(nodes, pool) && tick < TWO_64 && ScriptInPool(script, pool)
      requires installed ==> Stops(Entries(nodes), tick, script, 0, most)
      modifies this`timerList, this`nodes, pool
      ensures Valid() && InPool(nodes, pool)
      ensures !old(installed) ==> rc == -1 && fired == [] && Entries(nodes) == old(Entries(nodes))
      ensures old(installed) ==> Expiry(fired, Entries(nodes)) == Firings(old(Entries(nodes)), tick, script, 0, most)
      ensures old(installed) ==> rc == YieldResult(Entries(nodes), tick)
      ensures old(installed) && nodes != [] ==> tick < nodes[0].deadline < TWO_64
    {
      hide Firings, Stops, Valid, InPool, CallsInPool, Underway;
      fired := [];
      if !installed {
        return -1, fired;
      }
      ghost var whole := Firings(Entries(nodes), tick, script, 0, most);
      UnderwayStarts(whole, tick, script, most);
      var n := 0;
      ghost var left := most;
      HeadIsFirst();
      while timerList != null && tick >= timerList.deadline
        invariant Valid() && installed && InPool(nodes, pool) && timerList == Slot(nodes, 0)
        invariant Underway(whole, fired, tick, script, n, left)
        decreases left
      {
        var e := FireNext(tick, script, n, fired, left, pool, whole);
        fired := fired + [e];
        n, left := n + 1, left - 1;
        HeadIsFirst();
      }
      UnderwayEnds(whole, fired, tick, script, n, left);
      HeadIsArmed();
      rc := if timerList != null then ToInt((timerList.deadline - tick) % TWO_64) else 0;
    }

    lemma UnderwayStarts(whole: Expiry<Timer>, tick: nat, script: Script<Timer>, most: nat)
      requires whole == Firings(Entries(nodes), tick, script, 0, most) && Stops(Entries(nodes), tick, script, 0, most)
      ensures Underway(whole, [], tick, script, 0, most)
    {
      assert [] + whole.fired == whole.fired;
    }
  }

  lemma {:induction false} FiringsStep(l: seq<Entry<Timer>>, tick: nat, script: Script<Timer>, n: nat, most: nat, fired: seq<Entry<Timer>>)
    requires Stops(l, tick, script, n, most) && l != [] && l[0].deadline <= tick
    ensures most > 0 && Stops(CallAll(l[1..], script(n)), tick, script, n + 1, most - 1)
    ensures Following(fired, Firings(l, tick, script, n, most))
         == Following(fired + [l[0]], Firings(CallAll(l[1..], script(n)), tick, script, n + 1, most - 1))
  {
    hide CallAll;
    assert most > 0;
    var rest := Firings(CallAll(l[1..], script(n)), tick, script, n + 1, most - 1);
    assert fired + ([l[0]] + rest.fired) == fired + [l[0]] + rest.fired;
  }

  // Calls on existing timers, with 64-bit arguments.
  predicate CallsInPool(calls: seq<Op<Timer>>, pool: set<Timer>) {
    forall op | op in calls :: op.timer in pool && (op.Start? ==> op.timing < TWO_64 && op.now < TWO_64)
  }

  ghost predicate ScriptInPool(script: Script<Timer>, pool: set<Timer>) {
    forall n: nat :: CallsInPool(script(n), pool)
  }

  // The timers that exist.
  predicate InPool(nodes: seq<Timer>, pool: set<Timer>) {
    forall n | n in nodes :: n in pool
  }

  lemma PoolAlso(nodes: seq<Timer>, others: seq<Timer>, timer: Timer, pool: set<Timer>)
    requires InPool(others, pool) && timer in pool && Within(nodes, others + [timer])
    ensures InPool(nodes, pool)
  {
  }

  function Following(fired: seq<Entry<Timer>>, rest: Expiry<Timer>): Expiry<Timer> {
    Expiry(fired + rest.fired, rest.left)
  }
}
