/**
 A run of the ownership protocol that is not calm: a descriptor is closed by a worker and
 accepted again before that worker has left `process`.
 */
module SlotReuse {
  import opened ConnectionOwnership
  import opened Runs
  import opened Wrappers

  ghost predicate Reaches(s: State, t: State) { ReachedBy(Step, s, t) }

  /** A server in proactor mode, with descriptor 5 open or closed, and main between events. */
  function Rest(open: set<Conn>, armed: map<Conn, Interest>, sock: set<Conn>, queue: seq<Conn>,
                workers: map<nat, WorkerPc>): State {
    State(Proactor, 10000, open, armed, sock, map[], Polling, queue, workers, {}, {}, {}, 0, 0, {})
  }

  /** Two workers, both waiting. */
  const IDLE_WORKERS: map<nat, WorkerPc> := map[0 := Waiting, 1 := Waiting]

  lemma AcceptNew(s0: State, ws: map<nat, WorkerPc>)
    requires Reaches(s0, Rest({}, map[], {}, [], ws))
    ensures Reaches(s0, Rest({5}, map[5 := Readable], {5}, [], ws))
  {
    var s := Rest({}, map[], {}, [], ws);
    assert Reset(s, 5) == s && s.open + {5} == {5} && s.sock + {5} == {5};
    ReachedOn(Step, s0, s, Accept(5), Rest({5}, map[5 := Readable], {5}, [], ws));
  }

  /** The same with an event of descriptor 5 not yet handled. */
  function Reported(ws: map<nat, WorkerPc>): State {
    State(Proactor, 10000, {5}, map[], {5}, map[5 := Ready(Readable)], Polling, [], ws, {}, {}, {}, 0, 0, {})
  }

  lemma PollNew(s0: State, ws: map<nat, WorkerPc>)
    requires Reaches(s0, Rest({5}, map[5 := Readable], {5}, [], ws))
    ensures Reaches(s0, Reported(ws))
  {
    var s, event := Rest({5}, map[5 := Readable], {5}, [], ws), map[5 := Ready(Readable)];
    assert s.armed - event.Keys == map[];
    ReachedOn(Step, s0, s, Poll(event), Reported(ws));
  }

  /** Descriptor 5 is accepted and its first request reported by epoll. */
  lemma AcceptAndPoll(s0: State, ws: map<nat, WorkerPc>)
    requires Reaches(s0, Rest({}, map[], {}, [], ws))
    ensures Reaches(s0, Rest({5}, map[], {5}, [], ws).(main := Handling(5, Readable)))
  {
    AcceptNew(s0, ws);
    PollNew(s0, ws);
    assert Reported(ws).batch - {5} == map[];
    ReachedOn(Step, s0, Reported(ws), Dispatch(5), Rest({5}, map[], {5}, [], ws).(main := Handling(5, Readable)));
  }

  /** Descriptor 5 is accepted, becomes readable, is read by main and queued. */
  lemma ServeNewConnection(s0: State, ws: map<nat, WorkerPc>)
    requires Reaches(s0, Rest({}, map[], {}, [], ws))
    ensures Reaches(s0, Rest({5}, map[], {5}, [5], ws))
  {
    AcceptAndPoll(s0, ws);
    var s := Rest({5}, map[], {5}, [], ws);
    ReachedOn(Step, s0, s.(main := Handling(5, Readable)), MainRead(true), s.(main := Appending(5)));
    ReachedOn(Step, s0, s.(main := Appending(5)), MainAppend, s.(queue := s.queue + [5]));
    assert s.queue + [5] == [5];
  }

  /** A waiting worker takes the only task and starts to process it. */
  lemma TakeAndBegin(s0: State, s: State, w: nat)
    requires Reaches(s0, s) && s.mode.Proactor? && s.queue == [5]
    requires w in s.workers && s.workers[w] == Waiting
    ensures Reaches(s0, s.(queue := [], workers := s.workers[w := Processing(5)]))
  {
    var s1 := s.(queue := s.queue[1..], workers := s.workers[w := Picked(5)]);
    ReachedOn(Step, s0, s, Take(w), s1);
    ReachedOn(Step, s0, s1, Begin(w), s1.(workers := s1.workers[w := Processing(5)]));
    assert s.queue[1..] == [] && s.workers[w := Picked(5)][w := Processing(5)] == s.workers[w := Processing(5)];
  }

  /** Worker 0 refuses the request and closes the descriptor, short of forgetting it. */
  lemma RefuseAndClose(s0: State, ws: map<nat, WorkerPc>)
    requires 0 in ws && Reaches(s0, Rest({5}, map[], {5}, [], ws[0 := Processing(5)]))
    ensures Reaches(s0, Rest({}, map[], {5}, [], ws[0 := Forgetting(5)]))
  {
    var s := Rest({5}, map[], {5}, [], ws[0 := Processing(5)]);
    var s1 := s.(workers := s.workers[0 := Closing(5)]);
    ReachedOn(Step, s0, s, Process(0, Refuse), s1);
    var s2 := Close(s1, 5).(workers := s1.workers[0 := Forgetting(5)]);
    ReachedOn(Step, s0, s1, CloseFd(0), s2);
    assert s2 == Rest({}, map[], {5}, [], ws[0 := Forgetting(5)]);
  }

  /** It forgets the descriptor, short of the last modfd of process. */
  lemma Forget(s0: State, ws: map<nat, WorkerPc>)
    requires 0 in ws && Reaches(s0, Rest({}, map[], {5}, [], ws[0 := Forgetting(5)]))
    ensures Reaches(s0, Rest({}, map[], {}, [], ws[0 := Rearming(5)]))
  {
    var s := Rest({}, map[], {5}, [], ws[0 := Forgetting(5)]);
    ReachedOn(Step, s0, s, ForgetFd(0), s.(sock := s.sock - {5}, workers := s.workers[0 := Rearming(5)]));
    assert s.workers[0 := Rearming(5)] == ws[0 := Rearming(5)] && s.sock - {5} == {};
  }

  /** Its late modfd arms the new connection while worker 1 takes the first request of that. */
  lemma LateRearm(s0: State)
    requires Reaches(s0, Rest({5}, map[], {5}, [5], IDLE_WORKERS[0 := Rearming(5)]))
    ensures Reaches(s0, Rest({5}, map[5 := Writable], {5}, [], IDLE_WORKERS[0 := Waiting][1 := Processing(5)]))
  {
    var s := Rest({5}, map[], {5}, [5], IDLE_WORKERS[0 := Rearming(5)]);
    var s1 := s.(armed := s.armed[5 := Writable], workers := s.workers[0 := Waiting]);
    ReachedOn(Step, s0, s, Rearm(0), s1);
    TakeAndBegin(s0, s1, 1);
    assert IDLE_WORKERS[0 := Rearming(5)][0 := Waiting] == IDLE_WORKERS[0 := Waiting];
    assert s1.armed == map[5 := Writable];
  }

  /** Main then handles the connection that worker 1 processes. */
  lemma BothRun(s0: State, ws: map<nat, WorkerPc>)
    requires 1 in ws && ws[1] == Processing(5) && Reaches(s0, Rest({5}, map[5 := Writable], {5}, [], ws))
    ensures exists s :: Reaches(s0, s) && MainRuns(s, 5) && WorkerRuns(s, 1, 5)
  {
    var s := Rest({5}, map[5 := Writable], {5}, [], ws);
    var event := map[5 := Ready(Writable)];
    var s1 := s.(batch := event, armed := s.armed - event.Keys);
    ReachedOn(Step, s0, s, Poll(event), s1);
    var s2 := s1.(batch := s1.batch - {5}, main := Handling(5, Writable));
    ReachedOn(Step, s0, s1, Dispatch(5), s2);
    assert MainRuns(s2, 5) && WorkerRuns(s2, 1, 5);
  }

  /**
   The guard on accept is needed: when a worker that closed a descriptor has not left process
   and the descriptor is accepted again, main and a worker come to run write and process on
   the same connection at once.
   */
  lemma SlotReuseBreaksOwnership(s0: State)
    requires s0 == Rest({}, map[], {}, [], IDLE_WORKERS)
    ensures Initial(s0)
    ensures exists s :: Reaches(s0, s) && MainRuns(s, 5) && WorkerRuns(s, 1, 5)
  {
    assert Run(s0, []) == Some(s0);
    ServeNewConnection(s0, IDLE_WORKERS);
    TakeAndBegin(s0, Rest({5}, map[], {5}, [5], IDLE_WORKERS), 0);
    RefuseAndClose(s0, IDLE_WORKERS);
    Forget(s0, IDLE_WORKERS);
    ServeNewConnection(s0, IDLE_WORKERS[0 := Rearming(5)]);
    LateRearm(s0);
    BothRun(s0, IDLE_WORKERS[0 := Waiting][1 := Processing(5)]);
  }
}
