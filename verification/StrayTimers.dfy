/**
 Timers that outlive their connection. A worker's close_conn leaves the timer in the list, and
 the kernel hands the descriptor out again: the callback of the old timer then closes the new
 connection.
 */
module StrayTimers {
  import opened TimerList
  import opened TimerRuns
  import opened Runs
  import opened Wrappers

  /** The callback of this timer would close a connection that is not its own. */
  predicate Stray(s: Server, e: Entry) {
    e in s.list && e.fd in s.open && e.fd in s.timerOf && s.timerOf[e.fd] != e.id
  }

  /** The number of operations when timer `id` was last added; 0 when it never was. */
  function AddedAt(ops: seq<Op>, id: nat): nat {
    if ops == [] then 0
    else
      var last := |ops| - 1;
      if ops[last].Accept? && ops[last].id == id then |ops| else AddedAt(ops[..last], id)
  }

  /** The number of operations when descriptor `fd` was last accepted. */
  function AcceptedAt(ops: seq<Op>, fd: nat): nat {
    if ops == [] then 0
    else
      var last := |ops| - 1;
      if ops[last].Accept? && ops[last].fd == fd then |ops| else AcceptedAt(ops[..last], fd)
  }

  /** What the history says of the pointer to this timer's descriptor: it leads to the one added last. */
  predicate Dated(s: Server, ops: seq<Op>, id: nat)
    requires id in s.live
  {
    var fd := s.live[id].fd;
    && 0 < AddedAt(ops, id) <= AcceptedAt(ops, fd) <= |ops| && fd in s.timerOf
    && (s.timerOf[fd] == id <==> AddedAt(ops, id) == AcceptedAt(ops, fd))
  }

  predicate AllDated(s: Server, ops: seq<Op>) { forall id | id in s.live :: Dated(s, ops, id) }

  lemma AdjustDated(s: Server, before: seq<Op>, op: Op, id: nat)
    requires Inv(s) && AllDated(s, before) && op.Adjust? && Step(s, op).Some? && id in Step(s, op).value.live
    ensures Dated(Step(s, op).value, before + [op], id)
  {
    var i := TimerAt(s, op.fd);
    assert s.list[i].id in s.live && s.live[s.list[i].id] == s.list[i];
    assert Dated(s, before, id);
    assert (before + [op])[..|before|] == before;
  }

  /** One operation, on one timer that is there behind it. */
  lemma StillDated(s: Server, before: seq<Op>, op: Op, id: nat)
    requires Inv(s) && AllDated(s, before) && Step(s, op).Some? && id in Step(s, op).value.live
    ensures Dated(Step(s, op).value, before + [op], id)
  {
    if op.Adjust? {
      AdjustDated(s, before, op, id);
    } else {
      assert id in s.live ==> Dated(s, before, id);
      assert (before + [op])[..|before|] == before;
    }
  }

  lemma {:induction false} RunDated(ops: seq<Op>)
    requires Run(EMPTY_SERVER, ops).Some?
    ensures AllDated(Run(EMPTY_SERVER, ops).value, ops)
    decreases |ops|
  {
    if ops != [] {
      var last := |ops| - 1;
      RunOfLast(Step, EMPTY_SERVER, ops);
      RunDated(ops[..last]);
      RunKeeps(EMPTY_SERVER, ops[..last]);
      var s := Run(EMPTY_SERVER, ops[..last]).value;
      assert ops[..last] + [ops[last]] == ops;
      var t := Step(s, ops[last]).value;
      assert t == Run(EMPTY_SERVER, ops).value;
      forall id | id in t.live ensures Dated(t, ops, id) {
        StillDated(s, ops[..last], ops[last], id);
      }
    }
  }

  /**
   Main result: after any run from the empty server, a timer in the list is stray if and only
   if its descriptor is open and was accepted again after the timer was added.
   */
  lemma StrayExactly(ops: seq<Op>, e: Entry)
    requires Run(EMPTY_SERVER, ops).Some? && e in Run(EMPTY_SERVER, ops).value.list
    ensures var s := Run(EMPTY_SERVER, ops).value;
            Stray(s, e) <==> e.fd in s.open && AddedAt(ops, e.id) < AcceptedAt(ops, e.fd)
  {
    RunKeeps(EMPTY_SERVER, ops);
    RunDated(ops);
    var s := Run(EMPTY_SERVER, ops).value;
    assert e.id in s.live && s.live[e.id] == e && Dated(s, ops, e.id);
  }

  /** The descriptor of every live timer is open and points to it. */
  predicate AllOwn(s: Server) {
    forall id | id in s.live :: s.live[id].fd in s.open && s.live[id].fd in s.timerOf && s.timerOf[s.live[id].fd] == id
  }

  lemma OwnStays(s: Server, op: Op)
    requires Inv(s) && AllOwn(s) && Step(s, op).Some? && !op.WorkerClose?
    ensures AllOwn(Step(s, op).value)
  {
    var t := Step(s, op).value;
    forall id | id in t.live
      ensures t.live[id].fd in t.open && t.live[id].fd in t.timerOf && t.timerOf[t.live[id].fd] == id
    {
      assert op.Adjust? ==> op.fd in s.timerOf;
      assert id in s.live || (op.Accept? && op.id == id);
    }
  }

  /** That takes a worker: without a worker's close no timer is ever stray. */
  lemma {:induction false} StrayNeedsWorker(ops: seq<Op>)
    requires Run(EMPTY_SERVER, ops).Some? && forall k | 0 <= k < |ops| :: !ops[k].WorkerClose?
    ensures AllOwn(Run(EMPTY_SERVER, ops).value)
    ensures forall e :: !Stray(Run(EMPTY_SERVER, ops).value, e)
    decreases |ops|
  {
    RunKeeps(EMPTY_SERVER, ops);
    if ops != [] {
      var last := |ops| - 1;
      RunOfLast(Step, EMPTY_SERVER, ops);
      StrayNeedsWorker(ops[..last]);
      RunKeeps(EMPTY_SERVER, ops[..last]);
      OwnStays(Run(EMPTY_SERVER, ops[..last]).value, ops[last]);
    }
    var s := Run(EMPTY_SERVER, ops).value;
    forall e ensures !Stray(s, e) {
      assert e in s.list ==> e.id in s.live && s.live[e.id] == e;
    }
  }

  /**
   What a stray timer does when it expires: the descriptor is closed, and the timer of the
   connection that had it, due or not, stays in the list.
   */
  lemma StrayCloses(s: Server, now: int)
    requires Inv(s) && s.list != [] && Stray(s, s.list[0]) && Step(s, ExpireFirst(now)).Some?
    ensures var (t, fd) := (Step(s, ExpireFirst(now)).value, s.list[0].fd);
            && fd in s.open && fd !in t.open
            && t.timerOf[fd] in t.live && t.live[t.timerOf[fd]].fd == fd
            && t.live[t.timerOf[fd]] in t.list
  {
    var fd := s.list[0].fd;
    var own := s.live[s.timerOf[fd]];
    assert own in s.list && own != s.list[0];
    var k :| 0 <= k < |s.list| && s.list[k] == own;
    assert RemoveAt(s.list, 0)[k - 1] == own;
  }

  /** remove_timer goes by the pointer, so it closes the connection that it was called for. */
  lemma RemoveIsOwn(s: Server, fd: nat)
    requires Inv(s) && Step(s, Remove(fd)).Some?
    ensures var (t, id) := (Step(s, Remove(fd)).value, s.timerOf[fd]);
            && id in s.live && s.live[id].fd == fd && t.live == s.live - {id} && t.open == s.open - {fd}
  {
    var i := TimerAt(s, fd);
    assert s.list[i].id in s.live && s.live[s.list[i].id] == s.list[i];
  }

  // ---------- a run ----------

  /** Descriptor 5 with its old timer, due at 15, and its own, due at 20. */
  function Reused(): Server {
    var (a, b) := (Entry(0, 5, 15, 0), Entry(1, 5, 20, 2));
    Server([a, b], map[0 := a, 1 := b], map[5 := 1], {5}, {5}, 3)
  }

  lemma ReusedRuns()
    ensures Run(EMPTY_SERVER, [Accept(5, 0, 15), WorkerClose(5), Accept(5, 1, 20)]) == Some(Reused())
  {
    var (a, b) := (Entry(0, 5, 15, 0), Entry(1, 5, 20, 2));
    var s1 := Server([a], map[0 := a], map[5 := 0], {5}, {5}, 1);
    var s2 := s1.(open := {}, steps := 2);
    assert Insert([], a) == [a] && Insert([a], b) == [a, b] by { assert KeysOf([a]) == [15]; }
    assert s2.live[1 := b] == map[0 := a, 1 := b] && s2.timerOf[5 := 1] == map[5 := 1];
    assert EMPTY_SERVER.live[0 := a] == map[0 := a] && EMPTY_SERVER.timerOf[5 := 0] == map[5 := 0];
    assert {} + {5} == {5} && {5} + {5} == {5} && {5} - {5} == {};
    RunOfFirst(Step, EMPTY_SERVER, Accept(5, 0, 15), s1, [WorkerClose(5), Accept(5, 1, 20)]);
    RunOfFirst(Step, s1, WorkerClose(5), s2, [Accept(5, 1, 20)]);
    RunOfFirst(Step, s2, Accept(5, 1, 20), Reused(), []);
    assert [Accept(5, 0, 15)] + [WorkerClose(5), Accept(5, 1, 20)] == [Accept(5, 0, 15), WorkerClose(5), Accept(5, 1, 20)];
  }

  /** A run from the start in which a connection is closed before its time, by a timer that is not its own. */
  lemma ConnectionIsClosed()
    ensures exists ops :: Run(EMPTY_SERVER, ops).Some? && var s := Run(EMPTY_SERVER, ops).value;
              && s == Reused() && Stray(s, s.list[0])
              && Step(s, ExpireFirst(15)).Some? && var t := Step(s, ExpireFirst(15)).value;
                 5 !in t.open && t.list == [Entry(1, 5, 20, 2)]
  {
    ReusedRuns();
    var s := Reused();
    assert s.list[0] in s.list;
    assert RemoveAt(s.list, 0) == [Entry(1, 5, 20, 2)];
  }
}
