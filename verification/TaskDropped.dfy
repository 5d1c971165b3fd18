/**
 A run in which the proactor's main thread drops a task: two connections have sent a request,
 and the queue has room for one.
 */
module TaskDropped {
  import opened ConnectionOwnership
  import opened NoConnectionLost
  import opened SlotReuse
  import opened ThreadCounts
  import opened Runs
  import opened Wrappers

  /** A server in proactor mode with room for one task and both workers waiting. */
  function Tight(open: set<Conn>, armed: map<Conn, Interest>, batch: map<Conn, Event>, main: MainPc, queue: seq<Conn>): State {
    State(Proactor, 1, open, armed, open, batch, main, queue, IDLE_WORKERS, {}, {}, {}, 0, 0, {})
  }

  lemma AcceptBoth(s0: State)
    requires s0 == Tight({}, map[], map[], Polling, [])
    ensures Reaches(s0, Tight({5, 6}, map[5 := Readable, 6 := Readable], map[], Polling, []))
  {
    assert Run(s0, []) == Some(s0);
    var s := Tight({5}, map[5 := Readable], map[], Polling, []);
    assert s0.open + {5} == {5} && s0.improv - {5} == {} && s0.failed - {5} == {} && s0.writeTask - {5} == {};
    assert s0.timerFlag - {5} == {};
    ReachedOn(Step, s0, s0, Accept(5), s);
    assert s.open + {6} == {5, 6} && s.improv - {6} == {} && s.failed - {6} == {} && s.writeTask - {6} == {};
    assert s.timerFlag - {6} == {};
    ReachedOn(Step, s0, s, Accept(6), Tight({5, 6}, map[5 := Readable, 6 := Readable], map[], Polling, []));
  }

  lemma PollBoth(s0: State)
    requires Reaches(s0, Tight({5, 6}, map[5 := Readable, 6 := Readable], map[], Polling, []))
    ensures Reaches(s0, Tight({5, 6}, map[], map[5 := Ready(Readable), 6 := Ready(Readable)], Polling, []))
  {
    var s := Tight({5, 6}, map[5 := Readable, 6 := Readable], map[], Polling, []);
    var events := map[5 := Ready(Readable), 6 := Ready(Readable)];
    assert s.armed - events.Keys == map[];
    ReachedOn(Step, s0, s, Poll(events), Tight({5, 6}, map[], events, Polling, []));
  }

  /** Main takes up the event of `c` and reads the request. */
  lemma ReadOne(s0: State, batch: map<Conn, Event>, c: Conn, queue: seq<Conn>)
    requires c in batch && batch[c] == Ready(Readable) && Reaches(s0, Tight({5, 6}, map[], batch, Polling, queue))
    ensures Reaches(s0, Tight({5, 6}, map[], batch - {c}, Appending(c), queue))
  {
    var s, t := Tight({5, 6}, map[], batch, Polling, queue), Tight({5, 6}, map[], batch - {c}, Handling(c, Readable), queue);
    ReachedOn(Step, s0, s, Dispatch(c), t);
    ReachedOn(Step, s0, t, MainRead(true), Tight({5, 6}, map[], batch - {c}, Appending(c), queue));
  }

  /** Open, not armed, and in nobody's hands, although nothing has failed. */
  ghost predicate Lost(s: State, c: Conn) {
    c in s.open && c !in s.armed && c !in s.failed && Held(s, c) == 0
  }

  lemma LastIsLost(s: State)
    requires s == Tight({5, 6}, map[], map[], Appending(6), [5])
    ensures DropsTask(s, MainAppend) && Step(s, MainAppend).Some? && Lost(Step(s, MainAppend).value, 6)
  {
    var t := Step(s, MainAppend).value;
    assert Those(t.workers, Busy(6)) == {};
    assert multiset(t.queue)[6] == 0;
  }

  /** The task of the first connection fills the queue. */
  lemma FillQueue(s0: State)
    requires s0 == Tight({}, map[], map[], Polling, [])
    ensures Reaches(s0, Tight({5, 6}, map[], map[6 := Ready(Readable)], Polling, [5]))
  {
    AcceptBoth(s0);
    PollBoth(s0);
    var events := map[5 := Ready(Readable), 6 := Ready(Readable)];
    ReadOne(s0, events, 5, []);
    assert events - {5} == map[6 := Ready(Readable)];
    AppendFirst(s0);
  }

  lemma AppendFirst(s0: State)
    requires Reaches(s0, Tight({5, 6}, map[], map[6 := Ready(Readable)], Appending(5), []))
    ensures Reaches(s0, Tight({5, 6}, map[], map[6 := Ready(Readable)], Polling, [5]))
  {
    var s := Tight({5, 6}, map[], map[6 := Ready(Readable)], Appending(5), []);
    assert s.queue + [5] == [5];
    ReachedOn(Step, s0, s, MainAppend, Tight({5, 6}, map[], map[6 := Ready(Readable)], Polling, [5]));
  }

  /** The guard is needed: from the start such an append comes about, and loses an open connection. */
  lemma FullQueueDropsTask(s0: State)
    requires s0 == Tight({}, map[], map[], Polling, [])
    ensures Initial(s0)
    ensures exists s :: Reaches(s0, s) && DropsTask(s, MainAppend) && Step(s, MainAppend).Some? &&
                        Lost(Step(s, MainAppend).value, 6)
  {
    FillQueue(s0);
    ReadOne(s0, map[6 := Ready(Readable)], 6, [5]);
    assert map[6 := Ready(Readable)] - {6} == map[];
    LastIsLost(Tight({5, 6}, map[], map[], Appending(6), [5]));
  }
}
