/**
 The server's timer functions on the nodes themselves: the list, and the pointer that
 users_timer keeps for each descriptor. Whatever is called, they do what TimerRuns says on values.
 */
module TimerServer {
  import opened TimerList
  import opened TimerRuns
  import opened Runs
  import opened Wrappers

  /** What main does with timers; a worker's close_conn touches none. `id` only names the node. */
  datatype Call =
    | CreateTimer(fd: nat, id: nat, expire: int)
    | AdjustTimer(fd: nat, expire: int)
    | RemoveTimer(fd: nat)
    | TickAt(now: int)
    | CloseConn(fd: nat)

  /** The operations on values that a call is, when `ops` have been done. */
  function OpsOf(ops: seq<Op>, call: Call): seq<Op>
    requires Run(EMPTY_SERVER, ops).Some?
  {
    match call
    case CreateTimer(fd, id, expire) => [Accept(fd, id, expire)]
    case AdjustTimer(fd, expire) => [Adjust(fd, expire)]
    case RemoveTimer(fd) => [Remove(fd)]
    case TickAt(now) => Expiries(now, Due(ops, now))
    case CloseConn(fd) => [WorkerClose(fd)]
  }

  /** How many timers are due. */
  function Due(ops: seq<Op>, now: int): nat
    requires Run(EMPTY_SERVER, ops).Some?
  {
    InsertPos(KeysOf(Run(EMPTY_SERVER, ops).value.list), now)
  }

  /** How a sequence of calls goes: all done, up to a tick that reads a deleted node, or not to be made. */
  datatype Trace = Done(ops: seq<Op>) | StaleRead | NotMade

  function TraceOf(ops: seq<Op>, calls: seq<Call>): Trace
    decreases |calls|
  {
    if Run(EMPTY_SERVER, ops).None? then NotMade
    else if calls == [] then Done(ops)
    else if calls[0].TickAt? && 0 < Due(ops, calls[0].now) == |Run(EMPTY_SERVER, ops).value.list| then StaleRead
    else TraceOf(ops + OpsOf(ops, calls[0]), calls[1..])
  }

  /** Node by node, the timers of the list on values. */
  predicate Matches(nodes: seq<Timer>, list: seq<Entry>, nodeOf: map<nat, Timer>) {
    && |nodes| == |list|
    && forall i | 0 <= i < |nodes| ::
         list[i].id in nodeOf && nodeOf[list[i].id] == nodes[i] && nodes[i].user == list[i].fd
  }

  lemma KeysOfInserted(list: seq<Entry>, p: nat, e: Entry)
    requires p <= |list|
    ensures KeysOf(InsertAt(list, p, e)) == InsertAt(KeysOf(list), p, e.expire)
  {
  }

  lemma KeysOfRemoved(list: seq<Entry>, i: nat)
    requires i < |list|
    ensures KeysOf(RemoveAt(list, i)) == RemoveAt(KeysOf(list), i)
  {
  }

  lemma MatchesInserted(nodes: seq<Timer>, list: seq<Entry>, nodeOf: map<nat, Timer>, p: nat, t: Timer, e: Entry)
    requires Matches(nodes, list, nodeOf) && p <= |nodes| && t.user == e.fd
    requires forall i | 0 <= i < |list| :: list[i].id != e.id
    ensures Matches(InsertAt(nodes, p, t), InsertAt(list, p, e), nodeOf[e.id := t])
  {
  }

  lemma MatchesRemoved(nodes: seq<Timer>, list: seq<Entry>, nodeOf: map<nat, Timer>, i: nat)
    requires Matches(nodes, list, nodeOf) && i < |nodes|
    ensures Matches(RemoveAt(nodes, i), RemoveAt(list, i), nodeOf)
  {
  }

  /** Every watched descriptor's pointer is the node of its timer. */
  predicate Points(usersTimer: map<nat, Timer>, s: Server, nodeOf: map<nat, Timer>) {
    forall fd | fd in s.watched ::
      fd in usersTimer && fd in s.timerOf && s.timerOf[fd] in nodeOf && usersTimer[fd] == nodeOf[s.timerOf[fd]]
  }

  /** The list with these nodes and keys, and the pointers, are what a run of `ops` leaves. */
  predicate Shows(keys: seq<int>, nodes: seq<Timer>, usersTimer: map<nat, Timer>, nodeOf: map<nat, Timer>, ops: seq<Op>) {
    && Run(EMPTY_SERVER, ops).Some? && var s := Run(EMPTY_SERVER, ops).value;
       keys == KeysOf(s.list) && Matches(nodes, s.list, nodeOf) && Points(usersTimer, s, nodeOf)
  }

  /** After one more operation. */
  lemma NextState(ops: seq<Op>, op: Op)
    requires Run(EMPTY_SERVER, ops).Some?
    ensures Run(EMPTY_SERVER, ops + [op]) == Step(Run(EMPTY_SERVER, ops).value, op)
    ensures Inv(Run(EMPTY_SERVER, ops).value)
  {
    RunKeeps(EMPTY_SERVER, ops);
    RunOfMore(Step, EMPTY_SERVER, ops, [op]);
    RunOfOne(Step, Run(EMPTY_SERVER, ops).value, op);
  }

  /** The place of a watched descriptor's timer. */
  function PlaceOf(ops: seq<Op>, fd: nat): nat
    requires Run(EMPTY_SERVER, ops).Some?
  {
    TimerAt(Run(EMPTY_SERVER, ops).value, fd)
  }

  /** The pointer of a descriptor that main deals with leads to the node of its timer. */
  lemma PointerFound(keys: seq<int>, nodes: seq<Timer>, usersTimer: map<nat, Timer>, nodeOf: map<nat, Timer>,
                     ops: seq<Op>, op: Op)
    requires Shows(keys, nodes, usersTimer, nodeOf, ops) && (op.Adjust? || op.Remove?)
    requires Run(EMPTY_SERVER, ops + [op]).Some?
    ensures var i := PlaceOf(ops, op.fd); i < |nodes| == |keys| && op.fd in usersTimer && usersTimer[op.fd] == nodes[i]
  {
    NextState(ops, op);
    var s := Run(EMPTY_SERVER, ops).value;
    LiveIsListed(s.list, s.live, s.timerOf[op.fd]);
  }

  lemma CreateShows(keys: seq<int>, nodes: seq<Timer>, usersTimer: map<nat, Timer>, nodeOf: map<nat, Timer>,
                    ops: seq<Op>, op: Op, timer: Timer)
    requires Shows(keys, nodes, usersTimer, nodeOf, ops) && op.Accept? && Run(EMPTY_SERVER, ops + [op]).Some?
    requires timer.user == op.fd
    ensures var p := InsertPos(keys, op.expire);
            p <= |nodes| && Shows(InsertAt(keys, p, op.expire), InsertAt(nodes, p, timer), usersTimer[op.fd := timer],
                                  nodeOf[op.id := timer], ops + [op])
  {
    var s := Run(EMPTY_SERVER, ops).value;
    var p, e := InsertPos(keys, op.expire), Entry(op.id, op.fd, op.expire, s.steps);
    NextState(ops, op);
    KeysOfInserted(s.list, p, e);
    assert forall i | 0 <= i < |s.list| :: s.list[i].id != op.id;
    MatchesInserted(nodes, s.list, nodeOf, p, timer, e);
    PointsMore(usersTimer, s, nodeOf, op, timer);
  }

  lemma PointsMore(usersTimer: map<nat, Timer>, s: Server, nodeOf: map<nat, Timer>, op: Op, timer: Timer)
    requires PointersLive(s) && Points(usersTimer, s, nodeOf) && op.Accept? && Step(s, op).Some?
    ensures Points(usersTimer[op.fd := timer], Step(s, op).value, nodeOf[op.id := timer])
  {
  }

  lemma MatchesMoved(nodes: seq<Timer>, s: Server, nodeOf: map<nat, Timer>, i: nat, p: nat, e: Entry)
    requires Inv(s) && Matches(nodes, s.list, nodeOf) && i < |nodes| && p < |nodes|
    requires e.id == s.list[i].id && e.fd == s.list[i].fd
    ensures Matches(InsertAt(RemoveAt(nodes, i), p, nodes[i]), InsertAt(RemoveAt(s.list, i), p, e), nodeOf)
  {
    var rest, left := RemoveAt(s.list, i), RemoveAt(nodes, i);
    assert Matches(left, rest, nodeOf) by { MatchesRemoved(nodes, s.list, nodeOf, i); }
    assert forall k | 0 <= k < |rest| :: rest[k].id != e.id by { OrderedDistinct(s.list, s.live); }
    MatchesInserted(left, rest, nodeOf, p, nodes[i], e);
    assert nodeOf[e.id := nodes[i]] == nodeOf;
  }

  /** The list that adjust_timer makes of the nodes or of their keys. */
  function Moved<T>(s: seq<T>, i: nat, p: nat, x: T): seq<T>
    requires i < |s| && p < |s|
  {
    InsertAt(RemoveAt(s, i), p, x)
  }

  lemma AdjustShows(keys: seq<int>, nodes: seq<Timer>, usersTimer: map<nat, Timer>, nodeOf: map<nat, Timer>,
                    ops: seq<Op>, op: Op)
    requires Shows(keys, nodes, usersTimer, nodeOf, ops) && op.Adjust? && Run(EMPTY_SERVER, ops + [op]).Some?
    requires PlaceOf(ops, op.fd) < |nodes| == |keys|
    ensures var i := PlaceOf(ops, op.fd);
            var p := InsertPos(RemoveAt(keys, i), op.expire);
            && NotBelow(keys, i, op.expire)
            && Shows(Moved(keys, i, p, op.expire), Moved(nodes, i, p, nodes[i]), usersTimer, nodeOf, ops + [op])
  {
    var s, i := Run(EMPTY_SERVER, ops).value, PlaceOf(ops, op.fd);
    var e := s.list[i].(expire := op.expire, stamp := s.steps);
    var rest := RemoveAt(s.list, i);
    var p := InsertPos(KeysOf(rest), op.expire);
    NextState(ops, op);
    assert NotBelow(keys, i, op.expire) by { KeysAscend(s.list); }
    KeysOfRemoved(s.list, i);
    KeysOfInserted(rest, p, e);
    MatchesMoved(nodes, s, nodeOf, i, p, e);
  }

  lemma RemoveShows(keys: seq<int>, nodes: seq<Timer>, usersTimer: map<nat, Timer>, nodeOf: map<nat, Timer>,
                    ops: seq<Op>, op: Op)
    requires Shows(keys, nodes, usersTimer, nodeOf, ops) && (op.Remove? || op.ExpireFirst?)
    requires Run(EMPTY_SERVER, ops + [op]).Some?
    ensures var i := if op.Remove? then PlaceOf(ops, op.fd) else 0;
            i < |nodes| == |keys| && Shows(RemoveAt(keys, i), RemoveAt(nodes, i), usersTimer, nodeOf, ops + [op])
  {
    var s, i := Run(EMPTY_SERVER, ops).value, if op.Remove? then PlaceOf(ops, op.fd) else 0;
    NextState(ops, op);
    KeysOfRemoved(s.list, i);
    MatchesRemoved(nodes, s.list, nodeOf, i);
  }

  lemma CloseShows(keys: seq<int>, nodes: seq<Timer>, usersTimer: map<nat, Timer>, nodeOf: map<nat, Timer>,
                   ops: seq<Op>, op: Op)
    requires Shows(keys, nodes, usersTimer, nodeOf, ops) && op.WorkerClose? && Run(EMPTY_SERVER, ops + [op]).Some?
    ensures Shows(keys, nodes, usersTimer, nodeOf, ops + [op])
  {
    NextState(ops, op);
  }

  /** One turn of a tick that leaves a timer. */
  lemma TurnShows(keys: seq<int>, nodes: seq<Timer>, usersTimer: map<nat, Timer>, nodeOf: map<nat, Timer>,
                  ops: seq<Op>, now: int)
    requires Shows(keys, nodes, usersTimer, nodeOf, ops) && 1 < |keys| && keys[0] <= now
    ensures |nodes| == |keys| && Shows(keys[1..], nodes[1..], usersTimer, nodeOf, ops + [ExpireFirst(now)])
  {
    NextState(ops, ExpireFirst(now));
    assert RemoveAt(keys, 0) == keys[1..] && RemoveAt(nodes, 0) == nodes[1..];
    RemoveShows(keys, nodes, usersTimer, nodeOf, ops, ExpireFirst(now));
  }

  lemma TailsOfTails<T>(s: seq<T>, k: nat)
    requires 0 < k <= |s|
    ensures s[1..][k - 1..] == s[k..]
  {
  }

  /** The turns of a tick, when they leave a timer. */
  lemma {:induction false} TickShows(keys: seq<int>, nodes: seq<Timer>, usersTimer: map<nat, Timer>,
                                     nodeOf: map<nat, Timer>, ops: seq<Op>, now: int, k: nat)
    requires Shows(keys, nodes, usersTimer, nodeOf, ops) && |keys| == |nodes| && (k == 0 || k < |keys|)
    requires forall i | 0 <= i < k :: keys[i] <= now
    ensures Shows(keys[k..], nodes[k..], usersTimer, nodeOf, ops + Expiries(now, k))
    decreases k
  {
    if k == 0 {
      assert keys[0..] == keys && nodes[0..] == nodes && ops + [] == ops;
    } else {
      var next, first := ops + [ExpireFirst(now)], keys[1..];
      TurnShows(keys, nodes, usersTimer, nodeOf, ops, now);
      assert forall i | 0 <= i < k - 1 :: first[i] <= now by { assert forall i | 0 <= i < k - 1 :: first[i] == keys[i + 1]; }
      TickShows(first, nodes[1..], usersTimer, nodeOf, next, now, k - 1);
      TailsOfTails(keys, k);
      TailsOfTails(nodes, k);
      assert next + Expiries(now, k - 1) == ops + Expiries(now, k);
    }
  }

  lemma AllDue(keys: seq<int>, now: int)
    requires Ascending(keys)
    ensures keys != [] && keys[|keys| - 1] <= now <==> 0 < InsertPos(keys, now) == |keys|
  {
    if keys != [] && keys[|keys| - 1] <= now { InsertPosUnique(keys, now, |keys|); }
  }

  lemma InsertedAmong<T>(s: seq<T>, p: nat, x: T)
    requires p <= |s|
    ensures forall y | y in InsertAt(s, p, x) :: y == x || y in s
  {
  }

  lemma RemovedAmong<T>(s: seq<T>, i: nat)
    requires i < |s|
    ensures forall y | y in RemoveAt(s, i) :: y in s
  {
  }

  lemma MovedAmong<T>(s: seq<T>, i: nat, p: nat)
    requires i < |s| && p < |s|
    ensures forall y | y in Moved(s, i, p, s[i]) :: y in s
  {
    RemovedAmong(s, i);
    InsertedAmong(RemoveAt(s, i), p, s[i]);
  }

  class Timers {
    const list: SortedTimerList
    var usersTimer: map<nat, Timer>
    ghost var nodeOf: map<nat, Timer>
    ghost var ops: seq<Op>   // all that has been done

    ghost predicate Valid()
      reads this, list, list.nodes
    {
      list.Valid() && Shows(list.keys, list.nodes, usersTimer, nodeOf, ops)
    }

    constructor ()
      ensures Valid() && ops == [] && fresh(list) && list.nodes == []
    {
      list := new SortedTimerList();
      usersTimer, nodeOf, ops := map[], map[], [];
    }

    /** A new node, put behind those that expire no later. */
    method AddNew(fd: nat, expire: int) returns (timer: Timer)
      requires list.Valid()
      modifies list, list.nodes
      ensures list.Valid() && fresh(timer) && timer.user == fd
      ensures var p := InsertPos(old(list.keys), expire);
              && list.keys == InsertAt(old(list.keys), p, expire)
              && list.nodes == InsertAt(old(list.nodes), p, timer)
              && forall n | n in list.nodes :: n == timer || n in old(list.nodes)
    {
      timer := new Timer(fd, expire);
      InsertedAmong(list.nodes, InsertPos(list.keys, expire), timer);
      list.AddTimer(timer);
    }

    method Create(fd: nat, expire: int, ghost id: nat)
      requires Valid() && Run(EMPTY_SERVER, ops + [Accept(fd, id, expire)]).Some?
      modifies this, list, list.nodes
      ensures Valid() && ops == old(ops) + [Accept(fd, id, expire)]
      ensures forall n | n in list.nodes :: n in old(list.nodes) || fresh(n)
    {
      ghost var op, nodes, keys := Accept(fd, id, expire), list.nodes, list.keys;
      var timer := AddNew(fd, expire);
      CreateShows(keys, nodes, usersTimer, nodeOf, ops, op, timer);
      usersTimer := usersTimer[fd := timer];
      nodeOf, ops := nodeOf[id := timer], ops + [op];
    }

    /** adjust_timer: a later expiry for the node at `i`, and its new place. */
    method AdjustNode(timer: Timer, expire: int, ghost i: nat)
      requires list.Valid() && i < |list.nodes| && timer == list.nodes[i] && NotBelow(list.keys, i, expire)
      modifies list, list.nodes
      ensures list.Valid()
      ensures var p := InsertPos(RemoveAt(old(list.keys), i), expire);
              list.keys == Moved(old(list.keys), i, p, expire) && list.nodes == Moved(old(list.nodes), i, p, timer)
    {
      RemoveKeepsAscending(list.keys, i);
      timer.expire := expire;
      list.AdjustTimer(timer, i);
    }

    method Adjust(fd: nat, expire: int)
      requires Valid() && Run(EMPTY_SERVER, ops + [TimerRuns.Adjust(fd, expire)]).Some?
      modifies this, list, list.nodes
      ensures Valid() && ops == old(ops) + [TimerRuns.Adjust(fd, expire)]
      ensures forall n | n in list.nodes :: n in old(list.nodes)
    {
      ghost var op, i, nodes, keys := TimerRuns.Adjust(fd, expire), PlaceOf(ops, fd), list.nodes, list.keys;
      PointerFound(keys, nodes, usersTimer, nodeOf, ops, op);
      ghost var p := InsertPos(RemoveAt(keys, i), expire);
      AdjustShows(keys, nodes, usersTimer, nodeOf, ops, op);
      var timer := usersTimer[fd];
      ops := ops + [op];
      assert Shows(Moved(keys, i, p, expire), Moved(nodes, i, p, timer), usersTimer, nodeOf, ops);
      AdjustNode(timer, expire, i);
      MovedAmong(nodes, i, p);
    }

    method Remove(fd: nat)
      requires Valid() && Run(EMPTY_SERVER, ops + [TimerRuns.Remove(fd)]).Some?
      modifies this, list, list.nodes
      ensures Valid() && ops == old(ops) + [TimerRuns.Remove(fd)]
      ensures forall n | n in list.nodes :: n in old(list.nodes)
    {
      ghost var op, i, nodes := TimerRuns.Remove(fd), PlaceOf(ops, fd), list.nodes;
      PointerFound(list.keys, nodes, usersTimer, nodeOf, ops, op);
      RemoveShows(list.keys, nodes, usersTimer, nodeOf, ops, op);
      ops := ops + [op];
      RemovedAmong(nodes, i);
      list.Remove(usersTimer[fd], i);
    }

    /** A worker's close_conn: no timer is touched. */
    ghost method WorkerCloses(fd: nat)
      requires Valid() && Run(EMPTY_SERVER, ops + [WorkerClose(fd)]).Some?
      modifies this`ops
      ensures Valid() && ops == old(ops) + [WorkerClose(fd)]
    {
      CloseShows(list.keys, list.nodes, usersTimer, nodeOf, ops, WorkerClose(fd));
      ops := ops + [WorkerClose(fd)];
    }

    /** tick, as far as the list is concerned. */
    method TickNodes(now: int) returns (outcome: TickOutcome)
      requires list.Valid()
      modifies list, list.nodes
      ensures outcome == UseAfterFree <==> 0 < InsertPos(old(list.keys), now) == |old(list.keys)|
      ensures outcome == Completed ==>
                var due := InsertPos(old(list.keys), now);
                && list.Valid() && due <= |old(list.nodes)|
                && list.nodes == old(list.nodes)[due..] && list.keys == old(list.keys)[due..]
                && forall n | n in list.nodes :: n in old(list.nodes)
    {
      AllDue(list.keys, now);
      outcome := list.Tick(now);
    }

    method Tick(now: int) returns (outcome: TickOutcome)
      requires Valid()
      modifies this, list, list.nodes
      ensures outcome == UseAfterFree <==> 0 < InsertPos(old(list.keys), now) == |old(list.keys)|
      ensures outcome == Completed ==> Valid() && ops == old(ops) + Expiries(now, InsertPos(old(list.keys), now))
      ensures outcome == Completed ==> forall n | n in list.nodes :: n in old(list.nodes)
    {
      ghost var nodes, keys := list.nodes, list.keys;
      ghost var due := InsertPos(keys, now);
      outcome := TickNodes(now);
      if outcome == Completed {
        TickShows(keys, nodes, usersTimer, nodeOf, ops, now, due);
        ops := ops + Expiries(now, due);
      }
    }
  }

  /** One call; false when it has read a deleted node. */
  method Perform(server: Timers, call: Call) returns (ok: bool)
    requires server.Valid() && TraceOf(server.ops, [call]) != NotMade
    modifies server, server.list, server.list.nodes
    ensures ok <==> TraceOf(old(server.ops), [call]).Done?
    ensures ok ==> server.Valid() && Done(server.ops) == TraceOf(old(server.ops), [call])
    ensures ok ==> forall k | 0 <= k < |server.list.nodes| ::
                     server.list.nodes[k] in old(server.list.nodes) || fresh(server.list.nodes[k])
  {
    ok := true;
    match call
    case CreateTimer(fd, id, expire) => server.Create(fd, expire, id);
    case AdjustTimer(fd, expire) => server.Adjust(fd, expire);
    case RemoveTimer(fd) => server.Remove(fd);
    case TickAt(now) =>
      var outcome := server.Tick(now);
      ok := outcome == Completed;
    case CloseConn(fd) => server.WorkerCloses(fd);
  }

  /** The trace behind call `i`. */
  lemma TraceOn(ops: seq<Op>, calls: seq<Call>, i: nat)
    requires i < |calls|
    ensures match TraceOf(ops, [calls[i]])
            case Done(after) => TraceOf(ops, calls[i..]) == TraceOf(after, calls[i + 1..])
            case other => TraceOf(ops, calls[i..]) == other
  {
    assert [calls[i]][1..] == [] && calls[i..][1..] == calls[i + 1..];
  }

  /**
   Main result: any sequence of calls, made on the nodes and the pointers, leaves them as its
   operations leave the values, or reads a deleted node exactly where the values say so.
   */
  method PerformAll(server: Timers, calls: seq<Call>) returns (ok: bool)
    requires server.Valid() && TraceOf(server.ops, calls) != NotMade
    modifies server, server.list, server.list.nodes
    ensures ok <==> TraceOf(old(server.ops), calls).Done?
    ensures ok ==> server.Valid() && Done(server.ops) == TraceOf(old(server.ops), calls)
  {
    ghost var trace := TraceOf(server.ops, calls);
    ok := true;
    var i := 0;
    assert calls[0..] == calls;
    while i < |calls|
      invariant i <= |calls| && server.Valid() && TraceOf(server.ops, calls[i..]) == trace
      invariant forall k | 0 <= k < |server.list.nodes| ::
                  server.list.nodes[k] in old(server.list.nodes) || fresh(server.list.nodes[k])
    {
      TraceOn(server.ops, calls, i);
      ok := Perform(server, calls[i]);
      if !ok {
        return;
      }
      i := i + 1;
    }
    assert calls[i..] == [];
  }
}
