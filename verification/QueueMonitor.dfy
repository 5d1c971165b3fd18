/**
 The blocking queue as a monitor: any number of producers in `push` and of consumers in the
 untimed `pop` around one mutex and two condition variables. A wait gives the mutex up and
 sleeps in one step; a sleeper that is woken, also without cause, must lock again. What the
 guarded section does to the elements is in module BlockQueue.
 */
module QueueMonitor {
  import opened ThreadCounts
  import opened Runs
  import opened Wrappers

  type Item = nat

  datatype ProducerPc =
    | Idle
    | Entering(item: Item)   // about to lock, on entry or woken
    | Testing(item: Item)    // has the mutex, at the loop test
    | Asleep(item: Item)     // in onFull.wait
    | Inserted               // has the mutex, about to notify one consumer
    | Leaving                // has the mutex, about to unlock

  datatype ConsumerPc =
    | Resting
    | Arriving               // about to lock on entry
    | Woken                  // notified or woken without cause, about to lock again
    | Checking(again: bool)  // has the mutex, at the loop test; `again` after a wait
    | Sleeping               // in onEmpty.wait
    | Removed                // has the mutex, about to notify all producers
    | Departing              // has the mutex, about to unlock

  datatype Thread = Producer(id: nat) | Consumer(id: nat)

  /** `pushed` and `popped` are history. */
  datatype Monitor = Monitor(
    capacity: nat,
    queue: seq<Item>,
    mutex: Option<Thread>,
    producers: map<nat, ProducerPc>,
    consumers: map<nat, ConsumerPc>,
    pushed: seq<Item>,
    popped: seq<Item>)

  datatype Label =
    | CallPush(p: nat, item: Item) | ProducerMoves(p: nat) | NotifyOne(p: nat, woken: nat)
    | CallPop(c: nat) | ConsumerMoves(c: nat)
    | WakeProducer(p: nat) | WakeConsumer(c: nat)
    | Clear

  // ---------- the steps ----------

  function ProducerTo(s: Monitor, p: nat, pc: ProducerPc): Monitor { s.(producers := s.producers[p := pc]) }

  function ConsumerTo(s: Monitor, c: nat, pc: ConsumerPc): Monitor { s.(consumers := s.consumers[c := pc]) }

  function ProducerStep(s: Monitor, p: nat, pc: ProducerPc): Option<Monitor> {
    match pc
    case Entering(item) =>
      if s.mutex.None? then Some(ProducerTo(s.(mutex := Some(Producer(p))), p, Testing(item))) else None
    case Testing(item) =>
      if |s.queue| >= s.capacity then Some(ProducerTo(s.(mutex := None), p, Asleep(item)))
      else Some(ProducerTo(s.(queue := s.queue + [item], pushed := s.pushed + [item]), p, Inserted))
    case Leaving => Some(ProducerTo(s.(mutex := None), p, Idle))
    case _ => None
  }

  predicate SomeConsumerSleeps(s: Monitor) {
    exists c: nat | c in s.consumers :: s.consumers[c].Sleeping?
  }

  predicate SomeProducerSleeps(s: Monitor) {
    exists p: nat | p in s.producers :: s.producers[p].Asleep?
  }

  /** notify_one on onEmpty: some sleeping consumer is woken, none when none sleeps. */
  function NotifyOneStep(s: Monitor, p: nat, woken: nat): Option<Monitor> {
    if p !in s.producers || !s.producers[p].Inserted? then None
    else if woken in s.consumers && s.consumers[woken].Sleeping? then
      Some(ConsumerTo(ProducerTo(s, p, Leaving), woken, Woken))
    else if SomeConsumerSleeps(s) then None
    else Some(ProducerTo(s, p, Leaving))
  }

  function WakeAll(producers: map<nat, ProducerPc>): map<nat, ProducerPc> {
    map p | p in producers :: if producers[p].Asleep? then Entering(producers[p].item) else producers[p]
  }

  function ConsumerStep(s: Monitor, c: nat, pc: ConsumerPc): Option<Monitor> {
    match pc
    case Arriving =>
      if s.mutex.None? then Some(ConsumerTo(s.(mutex := Some(Consumer(c))), c, Checking(false))) else None
    case Woken =>
      if s.mutex.None? then Some(ConsumerTo(s.(mutex := Some(Consumer(c))), c, Checking(true))) else None
    case Checking(_) =>
      if s.queue == [] then Some(ConsumerTo(s.(mutex := None), c, Sleeping))
      else Some(ConsumerTo(s.(queue := s.queue[1..], popped := s.popped + [s.queue[0]]), c, Removed))
    case Removed => Some(ConsumerTo(s.(producers := WakeAll(s.producers)), c, Departing))
    case Departing => Some(ConsumerTo(s.(mutex := None), c, Resting))
    case _ => None
  }

  function Step(s: Monitor, l: Label): Option<Monitor> {
    match l
    case CallPush(p, item) =>
      if p in s.producers && s.producers[p].Idle? then Some(ProducerTo(s, p, Entering(item))) else None
    case ProducerMoves(p) => if p in s.producers then ProducerStep(s, p, s.producers[p]) else None
    case NotifyOne(p, woken) => NotifyOneStep(s, p, woken)
    case CallPop(c) =>
      if c in s.consumers && s.consumers[c].Resting? then Some(ConsumerTo(s, c, Arriving)) else None
    case ConsumerMoves(c) => if c in s.consumers then ConsumerStep(s, c, s.consumers[c]) else None
    case WakeProducer(p) =>
      if p in s.producers && s.producers[p].Asleep? then
        Some(ProducerTo(s, p, Entering(s.producers[p].item))) else None
    case WakeConsumer(c) =>
      if c in s.consumers && s.consumers[c].Sleeping? then Some(ConsumerTo(s, c, Woken)) else None
    case Clear => if s.mutex.None? then Some(s.(queue := [])) else None
  }

  predicate Initial(s: Monitor) {
    s.capacity > 0 && s.queue == [] && s.mutex == None && s.pushed == [] && s.popped == [] &&
    (forall p | p in s.producers :: s.producers[p] == Idle) &&
    (forall c | c in s.consumers :: s.consumers[c] == Resting)
  }

  /** Which clears a run may hold: none, those that find no producer asleep, or all. */
  datatype Clears = Never | Harmless | Always

  predicate Allowed(s: Monitor, l: Label, clears: Clears) {
    l.Clear? ==> clears.Always? || (clears.Harmless? && !SomeProducerSleeps(s))
  }

  predicate Leads(r: Monitor, l: Label, s: Monitor, clears: Clears) { Allowed(r, l, clears) && Step(r, l) == Some(s) }

  ghost predicate Reachable(s: Monitor, n: nat, clears: Clears)
    decreases n
  {
    if n == 0 then Initial(s) else exists r, l: Label :: Reachable(r, n - 1, clears) && Leads(r, l, s, clears)
  }

  // ---------- the invariant ----------

  predicate IsNotified(pc: ConsumerPc) { pc.Woken? || pc == Checking(true) }

  ghost function Notified(): ConsumerPc -> bool { pc => IsNotified(pc) }

  predicate ProducerHasMutex(pc: ProducerPc) { pc.Testing? || pc.Inserted? || pc.Leaving? }

  predicate ConsumerHasMutex(pc: ConsumerPc) { pc.Checking? || pc.Removed? || pc.Departing? }

  predicate MutexHeld(s: Monitor) {
    && (forall p | p in s.producers :: ProducerHasMutex(s.producers[p]) <==> s.mutex == Some(Producer(p)))
    && (forall c | c in s.consumers :: ConsumerHasMutex(s.consumers[c]) <==> s.mutex == Some(Consumer(c)))
  }

  /** A producer has inserted its item and not yet notified. */
  predicate NoticeDue(s: Monitor) {
    s.mutex.Some? && s.mutex.value.Producer? && s.mutex.value.id in s.producers &&
    s.producers[s.mutex.value.id].Inserted?
  }

  predicate RoomDue(s: Monitor) {
    s.mutex.Some? && s.mutex.value.Consumer? && s.mutex.value.id in s.consumers &&
    s.consumers[s.mutex.value.id].Removed?
  }

  /** While a consumer sleeps, the queued items are not more than the consumers notified. */
  ghost predicate ConsumersServed(s: Monitor) {
    SomeConsumerSleeps(s) ==>
      |s.queue| <= |Those(s.consumers, Notified())| + (if NoticeDue(s) then 1 else 0)
  }

  /** While a producer sleeps, the queue is full. */
  predicate ProducersServed(s: Monitor) {
    SomeProducerSleeps(s) ==> |s.queue| == s.capacity || RoomDue(s)
  }

  ghost predicate Inv(s: Monitor) {
    && s.capacity > 0 && |s.queue| <= s.capacity
    && MutexHeld(s) && ConsumersServed(s) && ProducersServed(s)
  }

  /** Items leave in the order they came. */
  predicate InOrder(s: Monitor) { s.pushed == s.popped + s.queue }

  // ---------- the invariant holds ----------

  lemma ProducerKeeps(s: Monitor, p: nat)
    requires Inv(s) && p in s.producers && ProducerStep(s, p, s.producers[p]).Some?
    ensures Inv(ProducerStep(s, p, s.producers[p]).value)
  {
  }

  lemma NotifyOneKeeps(s: Monitor, p: nat, woken: nat)
    requires Inv(s) && NotifyOneStep(s, p, woken).Some?
    ensures Inv(NotifyOneStep(s, p, woken).value)
  {
    if woken in s.consumers { CountAfterMove(s.consumers, woken, Woken, Notified()); }
  }

  lemma ConsumerKeeps(s: Monitor, c: nat)
    requires Inv(s) && c in s.consumers && ConsumerStep(s, c, s.consumers[c]).Some?
    ensures Inv(ConsumerStep(s, c, s.consumers[c]).value)
  {
    CountAfterMove(s.consumers, c, ConsumerStep(s, c, s.consumers[c]).value.consumers[c], Notified());
    assert s.queue != [] ==> s.queue == [s.queue[0]] + s.queue[1..];
  }

  lemma StepKeeps(s: Monitor, l: Label)
    requires Inv(s) && Step(s, l).Some? && !l.Clear?
    ensures Inv(Step(s, l).value)
  {
    match l
    case ProducerMoves(p) => ProducerKeeps(s, p);
    case NotifyOne(p, woken) => NotifyOneKeeps(s, p, woken);
    case ConsumerMoves(c) => ConsumerKeeps(s, c);
    case CallPop(c) => CountAfterMove(s.consumers, c, Arriving, Notified());
    case WakeConsumer(c) => CountAfterMove(s.consumers, c, Woken, Notified());
    case _ =>
  }

  /** Main result, one step: every step keeps the invariant, a clear if and only if no producer sleeps. */
  lemma StepKeepsExactly(s: Monitor, l: Label)
    requires Inv(s) && Step(s, l).Some?
    ensures Inv(Step(s, l).value) <==> (l.Clear? ==> !SomeProducerSleeps(s))
  {
    if l.Clear? {
      assert Step(s, l).value.producers == s.producers && Step(s, l).value.consumers == s.consumers;
    } else {
      StepKeeps(s, l);
    }
  }

  lemma StepKeepsOrder(s: Monitor, l: Label)
    requires InOrder(s) && Step(s, l).Some? && !l.Clear?
    ensures InOrder(Step(s, l).value)
  {
    if l.ConsumerMoves? && s.queue != [] { assert s.queue == [s.queue[0]] + s.queue[1..]; }
  }

  lemma NextInv(r: Monitor, l: Label, s: Monitor, clears: Clears)
    requires Inv(r) && Leads(r, l, s, clears) && !clears.Always?
    ensures Inv(s)
  {
    StepKeepsExactly(r, l);
  }

  lemma InitialInv(s: Monitor)
    requires Initial(s)
    ensures Inv(s)
  {
  }

  lemma Predecessor(s: Monitor, n: nat, clears: Clears) returns (r: Monitor, l: Label)
    requires n > 0 && Reachable(s, n, clears)
    ensures Reachable(r, n - 1, clears) && Leads(r, l, s, clears)
  {
    r, l :| Reachable(r, n - 1, clears) && Leads(r, l, s, clears);
  }

  lemma {:induction false} ReachableInv(s: Monitor, n: nat, clears: Clears)
    requires Reachable(s, n, clears) && !clears.Always?
    ensures Inv(s)
    decreases n, 0
  {
    if n == 0 {
      InitialInv(s);
    } else {
      InvOfNext(s, n, clears);
    }
  }

  lemma {:induction false} InvOfNext(s: Monitor, n: nat, clears: Clears)
    requires n > 0 && Reachable(s, n, clears) && !clears.Always?
    ensures Inv(s)
    decreases n - 1, 1
  {
    var r, l := Predecessor(s, n, clears);
    ReachableInv(r, n - 1, clears);
    NextInv(r, l, s, clears);
  }

  lemma {:induction false} ReachableInOrder(s: Monitor, n: nat)
    requires Reachable(s, n, Never)
    ensures InOrder(s)
    decreases n
  {
    if n > 0 {
      var r, l := Predecessor(s, n, Never);
      ReachableInOrder(r, n - 1);
      StepKeepsOrder(r, l);
    }
  }

  // ---------- what it means ----------

  /**
   Main result: with push, untimed pop and clears that find no producer asleep, no wakeup is
   lost. Whenever the mutex is free, a sleeping consumer implies as many notified consumers as
   there are items, and a sleeping producer implies a full queue; without clears, items leave
   in the order they came.
   */
  lemma NoLostWakeup(s: Monitor, n: nat, clears: Clears)
    requires Reachable(s, n, clears) && !clears.Always? && s.mutex.None?
    ensures forall c | c in s.consumers && s.consumers[c].Sleeping? ::
              |s.queue| <= |Those(s.consumers, Notified())|
    ensures forall p | p in s.producers && s.producers[p].Asleep? :: |s.queue| == s.capacity
    ensures |s.queue| <= s.capacity && (clears.Never? ==> s.pushed == s.popped + s.queue)
  {
    ReachableInv(s, n, clears);
    if clears.Never? { ReachableInOrder(s, n); }
  }

  /** Hence the queue never stands still: no state has only sleepers on one side and work for them. */
  lemma NeverAllAsleep(s: Monitor, n: nat, clears: Clears)
    requires Reachable(s, n, clears) && !clears.Always? && s.mutex.None?
    ensures s.queue != [] && SomeConsumerSleeps(s) ==>
              exists c | c in s.consumers :: s.consumers[c].Woken? && Step(s, ConsumerMoves(c)).Some?
    ensures |s.queue| < s.capacity ==> forall p | p in s.producers :: !s.producers[p].Asleep?
    ensures !(SomeConsumerSleeps(s) &&
              SomeProducerSleeps(s) &&
              (forall c | c in s.consumers :: !s.consumers[c].Woken?))
  {
    ReachableInv(s, n, clears);
    if Those(s.consumers, Notified()) != {} {
      var c :| c in Those(s.consumers, Notified());
      assert s.consumers[c].Woken? && Step(s, ConsumerMoves(c)).Some?;
    }
  }

  // ---------- a call alone ----------

  /** The item that a producer has in hand. */
  function InHand(pc: ProducerPc): seq<Item> {
    if pc.Entering? || pc.Testing? || pc.Asleep? then [pc.item] else []
  }

  /** What a step puts into the queue is what a producer had in hand, and nothing in hand is lost or changed. */
  lemma ItemsArrive(s: Monitor, l: Label, p: nat)
    requires Step(s, l).Some? && p in s.producers && InHand(s.producers[p]) != []
    ensures var t := Step(s, l).value;
            && p in t.producers
            && if l == ProducerMoves(p) && s.producers[p].Testing? && |s.queue| < s.capacity then
                 t.queue == s.queue + InHand(s.producers[p]) && t.producers[p].Inserted?
               else InHand(t.producers[p]) == InHand(s.producers[p])
  {
  }

  function Run(s: Monitor, ls: seq<Label>): Option<Monitor> { RunOf(Step, s, ls) }

  /** Moves one thread on. */
  lemma Onward(s: Monitor, l: Label, t: Monitor, ls: seq<Label>)
    requires Step(s, l).Some?
    requires var u := Step(s, l).value; u.producers == t.producers && u.consumers == t.consumers &&
                                        u == t.(producers := u.producers, consumers := u.consumers)
    ensures Run(s, [l] + ls) == Run(t, ls)
  {
    RunOfFirst(Step, s, l, t, ls);
  }

  /** The consumers after a notification that goes to `woken`, if he sleeps. */
  function WakeOne(consumers: map<nat, ConsumerPc>, woken: nat): map<nat, ConsumerPc> {
    if woken in consumers && consumers[woken].Sleeping? then consumers[woken := Woken] else consumers
  }

  /**
   push alone, with room in the queue: the item is at its end, one sleeping consumer is woken if
   there is any, and the mutex is free.
   */
  lemma PushAlone(s: Monitor, p: nat, item: Item, woken: nat)
    requires p in s.producers && s.producers[p].Idle? && s.mutex.None? && |s.queue| < s.capacity
    requires SomeConsumerSleeps(s) ==> woken in s.consumers && s.consumers[woken].Sleeping?
    ensures Run(s, [CallPush(p, item)] + ([ProducerMoves(p)] + ([ProducerMoves(p)] +
                   ([NotifyOne(p, woken)] + ([ProducerMoves(p)] + []))))) ==
            Some(s.(queue := s.queue + [item], pushed := s.pushed + [item], consumers := WakeOne(s.consumers, woken)))
  {
    var lock := Some(Producer(p));
    var s1 := s.(producers := s.producers[p := Entering(item)]);
    var s2 := s.(mutex := lock, producers := s.producers[p := Testing(item)]);
    var s3 := s.(mutex := lock, producers := s.producers[p := Inserted], queue := s.queue + [item],
                 pushed := s.pushed + [item]);
    var s4 := s3.(producers := s.producers[p := Leaving], consumers := WakeOne(s.consumers, woken));
    var s5 := s4.(producers := s.producers, mutex := None);
    assert s.producers[p := Idle] == s.producers;
    Onward(s, CallPush(p, item), s1,
           [ProducerMoves(p)] + ([ProducerMoves(p)] + ([NotifyOne(p, woken)] + ([ProducerMoves(p)] + []))));
    Onward(s1, ProducerMoves(p), s2, [ProducerMoves(p)] + ([NotifyOne(p, woken)] + ([ProducerMoves(p)] + [])));
    Onward(s2, ProducerMoves(p), s3, [NotifyOne(p, woken)] + ([ProducerMoves(p)] + []));
    Onward(s3, NotifyOne(p, woken), s4, [ProducerMoves(p)] + []);
    Onward(s4, ProducerMoves(p), s5, []);
  }

  /** pop alone: the oldest item, and every sleeping producer is woken. */
  lemma PopAlone(s: Monitor, c: nat)
    requires c in s.consumers && s.consumers[c].Resting? && s.mutex.None? && s.queue != []
    ensures Run(s, [CallPop(c)] + ([ConsumerMoves(c)] + ([ConsumerMoves(c)] + ([ConsumerMoves(c)] +
                   ([ConsumerMoves(c)] + []))))) ==
            Some(s.(queue := s.queue[1..], popped := s.popped + [s.queue[0]], producers := WakeAll(s.producers)))
    ensures forall p | p in s.producers :: WakeAll(s.producers)[p] ==
              if s.producers[p].Asleep? then Entering(s.producers[p].item) else s.producers[p]
  {
    var lock := Some(Consumer(c));
    var s1 := s.(consumers := s.consumers[c := Arriving]);
    var s2 := s.(mutex := lock, consumers := s.consumers[c := Checking(false)]);
    var s3 := s.(mutex := lock, consumers := s.consumers[c := Removed], queue := s.queue[1..],
                 popped := s.popped + [s.queue[0]]);
    var s4 := s3.(consumers := s.consumers[c := Departing], producers := WakeAll(s.producers));
    var s5 := s4.(consumers := s.consumers, mutex := None);
    assert s.consumers[c := Resting] == s.consumers;
    Onward(s, CallPop(c), s1, [ConsumerMoves(c)] + ([ConsumerMoves(c)] + ([ConsumerMoves(c)] + ([ConsumerMoves(c)] + []))));
    Onward(s1, ConsumerMoves(c), s2, [ConsumerMoves(c)] + ([ConsumerMoves(c)] + ([ConsumerMoves(c)] + [])));
    Onward(s2, ConsumerMoves(c), s3, [ConsumerMoves(c)] + ([ConsumerMoves(c)] + []));
    Onward(s3, ConsumerMoves(c), s4, [ConsumerMoves(c)] + []);
    Onward(s4, ConsumerMoves(c), s5, []);
  }

  /** Nobody who is in push or pop can make a step, but for wakeups without cause. */
  ghost predicate Stuck(s: Monitor) {
    && (forall p | p in s.producers :: Step(s, ProducerMoves(p)).None?)
    && (forall p, c | p in s.producers :: Step(s, NotifyOne(p, c)).None?)
    && (forall c | c in s.consumers :: Step(s, ConsumerMoves(c)).None?)
  }

  /**
   Main result on going on: without harmful clears, when nobody can make a step, all who are
   inside sleep, producers over a full queue only, consumers over an empty one only.
   */
  lemma StuckIsAsleep(s: Monitor, n: nat, clears: Clears)
    requires Reachable(s, n, clears) && !clears.Always? && Stuck(s)
    ensures s.mutex.None?
    ensures forall p | p in s.producers :: s.producers[p].Idle? || (s.producers[p].Asleep? && |s.queue| == s.capacity)
    ensures forall c | c in s.consumers :: s.consumers[c].Resting? || (s.consumers[c].Sleeping? && s.queue == [])
  {
    ReachableInv(s, n, clears);
    HeldByWhom(s, n, clears);
    if s.mutex.Some? { HolderGoesOn(s); }
    forall p | p in s.producers ensures s.producers[p].Idle? || s.producers[p].Asleep? {
      assert Step(s, ProducerMoves(p)).None?;
    }
    forall c | c in s.consumers ensures s.consumers[c].Resting? || s.consumers[c].Sleeping? {
      assert Step(s, ConsumerMoves(c)).None?;
    }
    NoLostWakeup(s, n, clears);
    assert Those(s.consumers, Notified()) == {};
  }

  /** The mutex is held by somebody who is there. */
  predicate HolderThere(s: Monitor) {
    s.mutex.Some? ==>
      if s.mutex.value.Producer? then s.mutex.value.id in s.producers else s.mutex.value.id in s.consumers
  }

  lemma {:induction false} HeldByWhom(s: Monitor, n: nat, clears: Clears)
    requires Reachable(s, n, clears)
    ensures HolderThere(s)
    decreases n
  {
    if n > 0 {
      var r, l := Predecessor(s, n, clears);
      HeldByWhom(r, n - 1, clears);
      HolderStays(r, l);
    }
  }

  lemma HolderStays(s: Monitor, l: Label)
    requires HolderThere(s) && Step(s, l).Some?
    ensures HolderThere(Step(s, l).value)
  {
  }

  lemma HolderGoesOn(s: Monitor)
    requires MutexHeld(s) && HolderThere(s) && s.mutex.Some?
    ensures !Stuck(s)
  {
    match s.mutex.value
    case Producer(p) =>
      if s.producers[p].Inserted? {
        if SomeConsumerSleeps(s) {
          var c: nat :| c in s.consumers && s.consumers[c].Sleeping?;
          assert Step(s, NotifyOne(p, c)).Some?;
        } else {
          assert Step(s, NotifyOne(p, 0)).Some?;
        }
      } else {
        assert Step(s, ProducerMoves(p)).Some?;
      }
    case Consumer(c) => assert Step(s, ConsumerMoves(c)).Some?;
  }

  // ---------- clear loses a wakeup ----------

  ghost predicate Possible(s: Monitor) {
    exists n: nat :: Reachable(s, n, Always)
  }

  /** One producer, one consumer and room for one item. */
  function Small(queue: seq<Item>, mutex: Option<Thread>, p: ProducerPc, c: ConsumerPc, pushed: seq<Item>): Monitor {
    Monitor(1, queue, mutex, map[0 := p], map[0 := c], pushed, [])
  }

  lemma StepPossible(s: Monitor, l: Label, t: Monitor)
    requires Possible(s) && Step(s, l) == Some(t)
    ensures Possible(t)
  {
    var n: nat :| Reachable(s, n, Always);
    assert Reachable(s, n + 1 - 1, Always) && Leads(s, l, t, Always);
    assert Reachable(t, n + 1, Always);
  }

  /** A step of the small monitor leads to the small monitor `t`, given with its updates or plainly. */
  lemma Advance(s: Monitor, l: Label, t: Monitor)
    requires Possible(s) && s.producers.Keys == s.consumers.Keys == {0} && t.producers.Keys == t.consumers.Keys == {0}
    requires Step(s, l).Some?
    requires var u := Step(s, l).value;
             && u.producers.Keys == u.consumers.Keys == {0}
             && u.producers[0] == t.producers[0] && u.consumers[0] == t.consumers[0]
             && u == t.(producers := u.producers, consumers := u.consumers)
    ensures Possible(t)
  {
    var u := Step(s, l).value;
    assert u.producers == t.producers && u.consumers == t.consumers;
    StepPossible(s, l, t);
  }

  /** The producer gets the mutex ... */
  lemma LockFirst()
    ensures Possible(Small([], Some(Producer(0)), Testing(7), Resting, []))
  {
    assert Reachable(Small([], None, Idle, Resting, []), 0, Always);
    Advance(Small([], None, Idle, Resting, []), CallPush(0, 7), Small([], None, Entering(7), Resting, []));
    Advance(Small([], None, Entering(7), Resting, []), ProducerMoves(0),
            Small([], Some(Producer(0)), Testing(7), Resting, []));
  }

  /** ... fills the queue ... */
  lemma FillQueue()
    ensures Possible(Small([7], None, Idle, Resting, [7]))
  {
    LockFirst();
    var lock := Some(Producer(0));
    assert [] + [7] == [7];
    Advance(Small([], lock, Testing(7), Resting, []), ProducerMoves(0), Small([7], lock, Inserted, Resting, [7]));
    Advance(Small([7], lock, Inserted, Resting, [7]), NotifyOne(0, 0), Small([7], lock, Leaving, Resting, [7]));
    Advance(Small([7], lock, Leaving, Resting, [7]), ProducerMoves(0), Small([7], None, Idle, Resting, [7]));
  }

  /** ... and falls asleep over its next item; then the queue is cleared. */
  lemma SleepAndClear()
    ensures Possible(Small([], None, Asleep(8), Resting, [7]))
  {
    FillQueue();
    var lock := Some(Producer(0));
    Advance(Small([7], None, Idle, Resting, [7]), CallPush(0, 8), Small([7], None, Entering(8), Resting, [7]));
    Advance(Small([7], None, Entering(8), Resting, [7]), ProducerMoves(0), Small([7], lock, Testing(8), Resting, [7]));
    Advance(Small([7], lock, Testing(8), Resting, [7]), ProducerMoves(0), Small([7], None, Asleep(8), Resting, [7]));
    Advance(Small([7], None, Asleep(8), Resting, [7]), Clear, Small([], None, Asleep(8), Resting, [7]));
  }

  /** The consumer then finds nothing and falls asleep too. */
  lemma ConsumerSleeps()
    ensures Possible(Small([], None, Asleep(8), Sleeping, [7]))
  {
    SleepAndClear();
    var lock := Some(Consumer(0));
    Advance(Small([], None, Asleep(8), Resting, [7]), CallPop(0), Small([], None, Asleep(8), Arriving, [7]));
    Advance(Small([], None, Asleep(8), Arriving, [7]), ConsumerMoves(0), Small([], lock, Asleep(8), Checking(false), [7]));
    Advance(Small([], lock, Asleep(8), Checking(false), [7]), ConsumerMoves(0), Small([], None, Asleep(8), Sleeping, [7]));
  }

  /**
   With clear the result fails: a producer comes to sleep on an empty queue, a consumer beside
   it, and only a wakeup without cause or another clear is left to happen.
   */
  lemma ClearLosesWakeup()
    ensures exists s ::
              && Possible(s) && s.queue == [] && SomeProducerSleeps(s) && SomeConsumerSleeps(s)
              && forall l: Label | Step(s, l).Some? :: l.WakeProducer? || l.WakeConsumer? || l.Clear?
  {
    ConsumerSleeps();
    var s := Small([], None, Asleep(8), Sleeping, [7]);
    assert s.producers[0].Asleep? && s.consumers[0].Sleeping?;
  }
}
