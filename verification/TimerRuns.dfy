/**
 Whole runs of the server's timers, on values: the list operations are those that class
 SortedTimerList is proved to perform on its nodes and keys. The count of users that goes with
 them is in module UserCount.
 */
module TimerRuns {
  import opened TimerList
  import opened Runs
  import opened Wrappers

  /** A timer of descriptor `fd`; `stamp` is the number of the step that added it or last adjusted it. */
  datatype Entry = Entry(id: nat, fd: nat, expire: int, stamp: nat)

  /**
   `live` is the reference: which timers there are, whatever the order of the list. `timerOf`
   is the pointer that users_timer keeps for a descriptor. `watched` are the descriptors
   accepted and not closed by a timer's callback since: main may still have an event of them,
   although a worker may have closed them meanwhile.
   */
  datatype Server = Server(
    list: seq<Entry>,
    live: map<nat, Entry>,
    timerOf: map<nat, nat>,
    open: set<nat>,
    watched: set<nat>,
    steps: nat)

  datatype Op =
    | Accept(fd: nat, id: nat, expire: int)   // createTimerForUser
    | Adjust(fd: nat, expire: int)            // adjust_timer, with an expiry not lowered
    | Remove(fd: nat)                         // remove_timer: callback, then remove
    | ExpireFirst(now: int)                   // one turn of tick's loop
    | WorkerClose(fd: nat)                    // close_conn in a worker: the timer stays

  function KeysOf(list: seq<Entry>): (keys: seq<int>)
    ensures |keys| == |list| && forall i | 0 <= i < |list| :: keys[i] == list[i].expire
  {
    seq(|list|, i requires 0 <= i < |list| => list[i].expire)
  }

  function Insert(list: seq<Entry>, e: Entry): seq<Entry> {
    InsertAt(list, InsertPos(KeysOf(list), e.expire), e)
  }

  /** The position of a timer in the list, or the length. */
  function IndexOf(list: seq<Entry>, id: nat): (i: nat)
    ensures i <= |list|
    ensures i < |list| ==> list[i].id == id
    ensures forall k | 0 <= k < i :: list[k].id != id
  {
    if list == [] || list[0].id == id then 0 else 1 + IndexOf(list[1..], id)
  }

  /** The place in the list of the timer that users_timer has for `fd`; the length for a dangling pointer. */
  function TimerAt(s: Server, fd: nat): (i: nat)
    ensures i <= |s.list|
    ensures i < |s.list| ==> fd in s.timerOf && s.list[i].id == s.timerOf[fd]
  {
    if fd in s.timerOf then IndexOf(s.list, s.timerOf[fd]) else |s.list|
  }

  /** A callback closes the descriptor of its timer. */
  function Drop(s: Server, i: nat): Server
    requires i < |s.list|
  {
    var e := s.list[i];
    s.(list := RemoveAt(s.list, i), live := s.live - {e.id}, open := s.open - {e.fd}, watched := s.watched - {e.fd},
       steps := s.steps + 1)
  }

  /**
   None where the program does not do this, for a pointer that dangles, and for the turn of
   tick that goes on to read a deleted node.
   */
  function Step(s: Server, op: Op): Option<Server> {
    match op
    case Accept(fd, id, expire) =>
      var e := Entry(id, fd, expire, s.steps);
      if id in s.live || fd in s.open then None
      else Some(s.(list := Insert(s.list, e), live := s.live[id := e], timerOf := s.timerOf[fd := id],
                   open := s.open + {fd}, watched := s.watched + {fd}, steps := s.steps + 1))
    case Adjust(fd, expire) =>
      var i := TimerAt(s, fd);
      if fd !in s.watched || i == |s.list| || expire < s.list[i].expire then None
      else
        var e := s.list[i].(expire := expire, stamp := s.steps);
        Some(s.(list := Insert(RemoveAt(s.list, i), e), live := s.live[e.id := e], steps := s.steps + 1))
    case Remove(fd) =>
      var i := TimerAt(s, fd);
      if fd !in s.watched || i == |s.list| then None else Some(Drop(s, i))
    case ExpireFirst(now) =>
      if |s.list| <= 1 || now < s.list[0].expire then None else Some(Drop(s, 0))
    case WorkerClose(fd) =>
      if fd in s.open then Some(s.(open := s.open - {fd}, steps := s.steps + 1)) else None
  }

  function Run(s: Server, ops: seq<Op>): Option<Server> { RunOf(Step, s, ops) }

  const EMPTY_SERVER := Server([], map[], map[], {}, {}, 0)

  predicate Before(a: Entry, b: Entry) {
    a.expire < b.expire || (a.expire == b.expire && a.stamp < b.stamp)
  }

  /** By expiry, and among equal expiries by the last addition or adjustment. */
  predicate Ordered(list: seq<Entry>) {
    forall i, j | 0 <= i < j < |list| :: Before(list[i], list[j])
  }

  predicate SameTimers(list: seq<Entry>, live: map<nat, Entry>) {
    && (forall i | 0 <= i < |list| :: list[i].id in live && live[list[i].id] == list[i])
    && (forall id | id in live :: live[id].id == id && live[id] in list)
  }

  predicate Stamped(list: seq<Entry>, steps: nat) {
    forall i | 0 <= i < |list| :: list[i].stamp < steps
  }

  /** Whoever may still have an event has a live timer of its own behind its pointer. */
  predicate PointersLive(s: Server) {
    && s.open <= s.watched
    && forall fd | fd in s.watched :: fd in s.timerOf && s.timerOf[fd] in s.live && s.live[s.timerOf[fd]].fd == fd
  }

  predicate Inv(s: Server) {
    Ordered(s.list) && SameTimers(s.list, s.live) && Stamped(s.list, s.steps) && PointersLive(s)
  }

  lemma InsertOrdered(list: seq<Entry>, e: Entry)
    requires Ordered(list) && Stamped(list, e.stamp)
    ensures Ordered(Insert(list, e)) && Stamped(Insert(list, e), e.stamp + 1)
  {
    var p := InsertPos(KeysOf(list), e.expire);
    forall i | 0 <= i < |list| ensures if i < p then Before(list[i], e) else Before(e, list[i]) {
      if i > p { assert Before(list[p], list[i]); }
    }
    OrderedAround(list, p, e);
  }

  lemma OrderedAround(list: seq<Entry>, p: nat, e: Entry)
    requires Ordered(list) && p <= |list|
    requires forall i | 0 <= i < |list| :: if i < p then Before(list[i], e) else Before(e, list[i])
    ensures Ordered(InsertAt(list, p, e))
  {
  }

  lemma InsertSame(list: seq<Entry>, live: map<nat, Entry>, p: nat, e: Entry)
    requires SameTimers(list, live) && e.id !in live && p <= |list|
    ensures SameTimers(InsertAt(list, p, e), live[e.id := e])
  {
    var after := InsertAt(list, p, e);
    assert after[p] == e;
    forall id | id in live ensures live[id] in after {
      assert live[id] in list[..p] || live[id] in list[p..];
    }
  }

  lemma RemoveOrdered(list: seq<Entry>, i: nat)
    requires Ordered(list) && i < |list|
    ensures Ordered(RemoveAt(list, i))
  {
  }

  lemma RemoveSame(list: seq<Entry>, live: map<nat, Entry>, i: nat)
    requires Ordered(list) && SameTimers(list, live) && i < |list|
    ensures SameTimers(RemoveAt(list, i), live - {list[i].id})
  {
    RemoveOrdered(list, i);
    var after := RemoveAt(list, i);
    forall e | e in after ensures e in list && e.id != list[i].id && live[e.id] == e {
      assert e in list[..i] || e in list[i + 1..];
      assert e in list;
    }
    forall id | id in live - {list[i].id} ensures live[id] in after {
      var k :| 0 <= k < |list| && list[k] == live[id];
      if k < i { assert after[k] == list[k]; } else { assert after[k - 1] == list[k]; }
    }
  }

  lemma MoveOrdered(list: seq<Entry>, i: nat, e: Entry)
    requires Ordered(list) && Stamped(list, e.stamp) && i < |list|
    ensures Ordered(Insert(RemoveAt(list, i), e)) && Stamped(Insert(RemoveAt(list, i), e), e.stamp + 1)
  {
    RemoveOrdered(list, i);
    InsertOrdered(RemoveAt(list, i), e);
  }

  lemma MoveSame(list: seq<Entry>, live: map<nat, Entry>, i: nat, e: Entry)
    requires Ordered(list) && SameTimers(list, live) && i < |list| && e.id == list[i].id
    ensures SameTimers(Insert(RemoveAt(list, i), e), live[e.id := e])
  {
    var rest := RemoveAt(list, i);
    RemoveSame(list, live, i);
    InsertSame(rest, live - {e.id}, InsertPos(KeysOf(rest), e.expire), e);
    assert (live - {e.id})[e.id := e] == live[e.id := e];
  }

  lemma AdjustKeeps(s: Server, fd: nat, expire: int)
    requires Inv(s) && Step(s, Adjust(fd, expire)).Some?
    ensures Inv(Step(s, Adjust(fd, expire)).value)
  {
    var i := TimerAt(s, fd);
    var e := s.list[i].(expire := expire, stamp := s.steps);
    MoveOrdered(s.list, i, e);
    MoveSame(s.list, s.live, i, e);
  }

  /** A callback takes its timer out, and its descriptor from those that main looks at. */
  lemma DropKeeps(s: Server, i: nat)
    requires Inv(s) && i < |s.list|
    ensures Inv(Drop(s, i))
  {
    RemoveOrdered(s.list, i);
    RemoveSame(s.list, s.live, i);
  }

  lemma StepKeeps(s: Server, op: Op)
    requires Inv(s) && Step(s, op).Some?
    ensures Inv(Step(s, op).value)
  {
    match op
    case Accept(fd, id, expire) =>
      InsertOrdered(s.list, Entry(id, fd, expire, s.steps));
      InsertSame(s.list, s.live, InsertPos(KeysOf(s.list), expire), Entry(id, fd, expire, s.steps));
    case Adjust(fd, expire) => AdjustKeeps(s, fd, expire);
    case Remove(fd) => DropKeeps(s, TimerAt(s, fd));
    case ExpireFirst(_) => DropKeeps(s, 0);
    case WorkerClose(_) =>
  }

  lemma {:induction false} RunKeeps(s: Server, ops: seq<Op>)
    requires Inv(s) && Run(s, ops).Some?
    ensures Inv(Run(s, ops).value)
    decreases |ops|
  {
    if ops != [] {
      StepKeeps(s, ops[0]);
      RunKeeps(Step(s, ops[0]).value, ops[1..]);
    }
  }

  lemma OrderedDistinct(list: seq<Entry>, live: map<nat, Entry>)
    requires Ordered(list) && SameTimers(list, live)
    ensures forall i, j | 0 <= i < j < |list| :: list[i].id != list[j].id
  {
    forall i, j | 0 <= i < j < |list| ensures list[i].id != list[j].id {
      assert Before(list[i], list[j]);
    }
  }

  lemma LiveIsListed(list: seq<Entry>, live: map<nat, Entry>, id: nat)
    requires SameTimers(list, live) && id in live
    ensures IndexOf(list, id) < |list| && list[IndexOf(list, id)] == live[id]
  {
    var k :| 0 <= k < |list| && list[k] == live[id];
  }

  /**
   Main result: after any run from the empty server the list holds exactly the live timers,
   none lost or doubled, by expiry and among equals by their last addition or adjustment; and
   the pointer of every open descriptor leads to its own timer in the list.
   */
  lemma ListIsOrderedLive(s0: Server, ops: seq<Op>)
    requires s0 == EMPTY_SERVER && Run(s0, ops).Some?
    ensures var s := Run(s0, ops).value;
            && Ordered(s.list) && SameTimers(s.list, s.live)
            && (forall i, j | 0 <= i < j < |s.list| :: s.list[i].id != s.list[j].id)
            && s.open <= s.watched
            && forall fd | fd in s.watched :: TimerAt(s, fd) < |s.list| && s.list[TimerAt(s, fd)].fd == fd
  {
    RunKeeps(s0, ops);
    var s := Run(s0, ops).value;
    OrderedDistinct(s.list, s.live);
    forall fd | fd in s.watched ensures TimerAt(s, fd) < |s.list| && s.list[TimerAt(s, fd)].fd == fd {
      LiveIsListed(s.list, s.live, s.timerOf[fd]);
    }
  }

  /** The turns of one tick. */
  function Expiries(now: int, k: nat): seq<Op> { if k == 0 then [] else [ExpireFirst(now)] + Expiries(now, k - 1) }

  /** Turns that leave a timer take the first ones. */
  lemma {:induction false} TurnsTakeFirst(s: Server, now: int, k: nat)
    requires Ordered(s.list) && k < |s.list| && forall i | 0 <= i < k :: s.list[i].expire <= now
    ensures Run(s, Expiries(now, k)).Some? && Run(s, Expiries(now, k)).value.list == s.list[k..]
    decreases k
  {
    if k > 0 {
      var t := Drop(s, 0);
      assert t.list == s.list[1..] && Ordered(t.list) by { RemoveOrdered(s.list, 0); }
      assert Expiries(now, k)[1..] == Expiries(now, k - 1);
      TurnsTakeFirst(t, now, k - 1);
      assert t.list[k - 1..] == s.list[k..];
    }
  }

  /** The timers due are the first ones, as many as the stable position of `now`. */
  lemma DueArePrefix(list: seq<Entry>, now: int)
    requires Ordered(list)
    ensures forall i | 0 <= i < |list| :: list[i].expire <= now <==> i < InsertPos(KeysOf(list), now)
  {
    KeysAscend(list);
  }

  lemma KeysAscend(list: seq<Entry>)
    requires Ordered(list)
    ensures Ascending(KeysOf(list))
  {
    forall i, j | 0 <= i < j < |list| ensures KeysOf(list)[i] <= KeysOf(list)[j] {
      assert Before(list[i], list[j]);
    }
  }

  /** When some timer outlives it, the turns of a tick take the timers due and no other. */
  lemma TickIsExpiries(s: Server, now: int, due: nat)
    requires Ordered(s.list) && due == InsertPos(KeysOf(s.list), now) && due < |s.list|
    ensures Run(s, Expiries(now, due)).Some? && Run(s, Expiries(now, due)).value.list == s.list[due..]
    ensures forall i | 0 <= i < |s.list| :: s.list[i].expire <= now <==> i < due
  {
    DueArePrefix(s.list, now);
    TurnsTakeFirst(s, now, due);
  }

  lemma FirstIsLeast(list: seq<Entry>, k: nat)
    requires Ordered(list) && k < |list|
    ensures k == 0 || Before(list[0], list[k])
  {
  }

  lemma HasSome(list: seq<Entry>)
    requires list != []
    ensures exists e :: e in list
  {
    assert list[0] in list;
  }

  /** The order determines the list: two ordered lists of the same timers are equal. */
  lemma {:induction false} OrderDeterminesList(a: seq<Entry>, b: seq<Entry>)
    requires Ordered(a) && Ordered(b) && (forall e :: e in a <==> e in b)
    ensures a == b
  {
    if a == [] {
      if b != [] { HasSome(b); }
    } else {
      assert a[0] in b;
      var i :| 0 <= i < |b| && b[i] == a[0];
      assert b[0] in a;
      var j :| 0 <= j < |a| && a[j] == b[0];
      FirstIsLeast(b, i);
      FirstIsLeast(a, j);
      TailsAgree(a, b);
      OrderDeterminesList(a[1..], b[1..]);
      assert a == [a[0]] + a[1..] && b == [b[0]] + b[1..];
    }
  }

  lemma TailsAgree(a: seq<Entry>, b: seq<Entry>)
    requires a != [] && b != [] && a[0] == b[0] && Ordered(a) && Ordered(b)
    requires forall e :: e in a <==> e in b
    ensures forall e :: e in a[1..] <==> e in b[1..]
  {
    forall e ensures e in a[1..] <==> e in b[1..] {
      InTail(a, e);
      InTail(b, e);
    }
  }

  lemma InTail(list: seq<Entry>, e: Entry)
    requires list != [] && Ordered(list)
    ensures e in list[1..] <==> e in list && e != list[0]
  {
    if e in list[1..] {
      var k :| 0 <= k < |list| - 1 && list[1..][k] == e;
      FirstIsLeast(list, k + 1);
    }
    if e in list && e != list[0] {
      var k :| 1 <= k < |list| && list[k] == e;
      assert list[1..][k - 1] == e;
    }
  }
}
