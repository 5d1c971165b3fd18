/**
 A run that is not calm at an init of write: a flag of an earlier response is still to be
 stored when a worker resets the connection for the next request.
 */
module LateReset {
  import opened ConnectionOwnership
  import opened SlotReuse
  import opened LateFlag
  import opened Runs
  import opened Wrappers

  /** A server in reactor mode with descriptor 5 open and no flag stored. */
  function Open5(armed: map<Conn, Interest>, main: MainPc, queue: seq<Conn>, ws: Workers, writeTask: set<Conn>,
                 improv: set<Conn>, appends: nat, finished: nat, failed: set<Conn>): State {
    State(Reactor, 10000, {5}, armed, {5}, map[], main, queue, ws, writeTask, improv, {}, appends, finished, failed)
  }

  function TaskOf(interest: Interest): set<Conn> { if interest.Writable? then {5} else {} }

  /** Main takes up an event and appends the task. */
  lemma TakeUp(s0: State, interest: Interest, ws: Workers, writeTask: set<Conn>, n: nat, failed: set<Conn>)
    requires Reaches(s0, Open5(map[5 := interest], Polling, [], ws, writeTask, {}, n, n, failed)) && writeTask <= {5}
    ensures Reaches(s0, Open5(map[], Spinning(5, interest), [5], ws, TaskOf(interest), {}, n + 1, n, failed))
  {
    var s, event := Open5(map[5 := interest], Polling, [], ws, writeTask, {}, n, n, failed), map[5 := Ready(interest)];
    var t := State(Reactor, 10000, {5}, map[], {5}, event, Polling, [], ws, writeTask, {}, {}, n, n, failed);
    assert s.armed - event.Keys == map[];
    ReachedOn(Step, s0, s, Poll(event), t);
    var u := Open5(map[], Handling(5, interest), [], ws, writeTask, {}, n, n, failed);
    assert event - {5} == map[];
    ReachedOn(Step, s0, t, Dispatch(5), u);
    Append(s0, interest, ws, writeTask, n, failed);
  }

  lemma Append(s0: State, interest: Interest, ws: Workers, writeTask: set<Conn>, n: nat, failed: set<Conn>)
    requires Reaches(s0, Open5(map[], Handling(5, interest), [], ws, writeTask, {}, n, n, failed)) && writeTask <= {5}
    ensures Reaches(s0, Open5(map[], Spinning(5, interest), [5], ws, TaskOf(interest), {}, n + 1, n, failed))
  {
    var s := Open5(map[], Handling(5, interest), [], ws, writeTask, {}, n, n, failed);
    assert s.queue + [5] == [5] && writeTask + {5} == {5} && writeTask - {5} == {};
    ReachedOn(Step, s0, s, AppendAndSpin,
              Open5(map[], Spinning(5, interest), [5], ws, TaskOf(interest), {}, n + 1, n, failed));
  }

  function Inside(interest: Interest): WorkerPc { if interest.Writable? then Writing(5) else Reading(5) }

  /** Worker `w` takes the task and enters read_once or write. */
  lemma Enter(s0: State, interest: Interest, ws: Workers, w: nat, n: nat, failed: set<Conn>)
    requires w in ws && ws[w] == Waiting
    requires Reaches(s0, Open5(map[], Spinning(5, interest), [5], ws, TaskOf(interest), {}, n + 1, n, failed))
    ensures Reaches(s0, Open5(map[], Spinning(5, interest), [], ws[w := Inside(interest)], TaskOf(interest), {}, n + 1, n,
                              failed))
  {
    var s := Open5(map[], Spinning(5, interest), [5], ws, TaskOf(interest), {}, n + 1, n, failed);
    var t := Open5(map[], Spinning(5, interest), [], ws[w := Picked(5)], TaskOf(interest), {}, n + 1, n, failed);
    assert s.queue[1..] == [];
    ReachedOn(Step, s0, s, Take(w), t);
    assert ws[w := Picked(5)][w := Inside(interest)] == ws[w := Inside(interest)];
    ReachedOn(Step, s0, t, Begin(w),
              Open5(map[], Spinning(5, interest), [], ws[w := Inside(interest)], TaskOf(interest), {}, n + 1, n, failed));
  }

  /** A read that succeeds, up to the store of `improv`. */
  lemma ReadWell(s0: State, ws: Workers, w: nat, n: nat, failed: set<Conn>)
    requires w in ws && Reaches(s0, Open5(map[], Spinning(5, Readable), [], ws[w := Reading(5)], {}, {}, n + 1, n, failed))
    ensures Reaches(s0, Open5(map[], Spinning(5, Readable), [], ws[w := Processing(5)], {}, {5}, n + 1, n + 1, failed))
  {
    var s := Open5(map[], Spinning(5, Readable), [], ws[w := Reading(5)], {}, {}, n + 1, n, failed);
    var t := Open5(map[], Spinning(5, Readable), [], ws[w := ReadDone(5)], {}, {}, n + 1, n + 1, failed);
    assert ws[w := Reading(5)][w := ReadDone(5)] == ws[w := ReadDone(5)];
    ReachedOn(Step, s0, s, ReadReturns(w, true), t);
    PublishRead(s0, ws, w, n + 1, failed);
  }

  lemma PublishRead(s0: State, ws: Workers, w: nat, n: nat, failed: set<Conn>)
    requires w in ws && Reaches(s0, Open5(map[], Spinning(5, Readable), [], ws[w := ReadDone(5)], {}, {}, n, n, failed))
    ensures Reaches(s0, Open5(map[], Spinning(5, Readable), [], ws[w := Processing(5)], {}, {5}, n, n, failed))
  {
    var t := Open5(map[], Spinning(5, Readable), [], ws[w := ReadDone(5)], {}, {}, n, n, failed);
    assert ws[w := ReadDone(5)][w := Processing(5)] == ws[w := Processing(5)] && t.improv + {5} == {5};
    ReachedOn(Step, s0, t, Publish(w),
              Open5(map[], Spinning(5, Readable), [], ws[w := Processing(5)], {}, {5}, n, n, failed));
  }

  /** Main sees `improv` and no flag, and ends the handshake. */
  lemma LeaveSpin(s0: State, interest: Interest, armed: map<Conn, Interest>, ws: Workers, writeTask: set<Conn>, n: nat,
                  failed: set<Conn>)
    requires Reaches(s0, Open5(armed, Spinning(5, interest), [], ws, writeTask, {5}, n, n, failed))
    ensures Reaches(s0, Open5(armed, Polling, [], ws, writeTask, {}, n, n, failed))
  {
    var s, t := Open5(armed, Spinning(5, interest), [], ws, writeTask, {5}, n, n, failed),
                Open5(armed, Checking(5), [], ws, writeTask, {5}, n, n, failed);
    ReachedOn(Step, s0, s, SeeImprov, t);
    var u := Open5(armed, ClearingImprov(5), [], ws, writeTask, {5}, n, n, failed);
    ReachedOn(Step, s0, t, CheckFlag, u);
    assert u.improv - {5} == {};
    ReachedOn(Step, s0, u, ClearImprov, Open5(armed, Polling, [], ws, writeTask, {}, n, n, failed));
  }

  /** process makes a response and re-arms for writing. */
  lemma RespondWell(s0: State, ws: Workers, w: nat, n: nat, failed: set<Conn>)
    requires w in ws && ws[w] == Waiting && Reaches(s0, Open5(map[], Polling, [], ws[w := Processing(5)], {}, {}, n, n, failed))
    ensures Reaches(s0, Open5(map[5 := Writable], Polling, [], ws, {}, {}, n, n, failed))
  {
    var s := Open5(map[], Polling, [], ws[w := Processing(5)], {}, {}, n, n, failed);
    var t := Open5(map[], Polling, [], ws[w := Rearming(5)], {}, {}, n, n, failed);
    assert ws[w := Processing(5)][w := Rearming(5)] == ws[w := Rearming(5)];
    ReachedOn(Step, s0, s, Process(w, Respond), t);
    assert ws[w := Rearming(5)][w := Waiting] == ws;
    ReachedOn(Step, s0, t, Rearm(w), Open5(map[5 := Writable], Polling, [], ws, {}, {}, n, n, failed));
  }

  /** A request is read and processed by worker `w`, up to the event for its response. */
  lemma RequestRound(s0: State, ws: Workers, w: nat, writeTask: set<Conn>, n: nat, failed: set<Conn>)
    requires w in ws && ws[w] == Waiting && writeTask <= {5}
    requires Reaches(s0, Open5(map[5 := Readable], Polling, [], ws, writeTask, {}, n, n, failed))
    ensures Reaches(s0, Open5(map[], Spinning(5, Writable), [], ws[w := Writing(5)], {5}, {}, n + 2, n + 1, failed))
  {
    TakeUp(s0, Readable, ws, writeTask, n, failed);
    Enter(s0, Readable, ws, w, n, failed);
    ReadWell(s0, ws, w, n, failed);
    LeaveSpin(s0, Readable, map[], ws[w := Processing(5)], {}, n + 1, failed);
    RespondWell(s0, ws, w, n + 1, failed);
    TakeUp(s0, Writable, ws, {}, n + 1, failed);
    Enter(s0, Writable, ws, w, n + 1, failed);
  }

  /** write ends a response that closes ... */
  lemma CloseWrite(s0: State, ws: Workers, w: nat, n: nat)
    requires w in ws && Reaches(s0, Open5(map[], Spinning(5, Writable), [], ws[w := Writing(5)], {5}, {}, n + 1, n, {}))
    ensures Reaches(s0, Open5(map[5 := Readable], Spinning(5, Writable), [], ws[w := Failing(5)], {5}, {}, n + 1, n + 1, {5}))
  {
    var s := Open5(map[], Spinning(5, Writable), [], ws[w := Writing(5)], {5}, {}, n + 1, n, {});
    assert ws[w := Writing(5)][w := Failing(5)] == ws[w := Failing(5)] && s.failed + {5} == {5};
    ReachedOn(Step, s0, s, WriteReturns(w, CompleteClose),
              Open5(map[5 := Readable], Spinning(5, Writable), [], ws[w := Failing(5)], {5}, {}, n + 1, n + 1, {5}));
  }

  /** ... and main does not see the flag that is still to come. */
  lemma CloseUnseen(s0: State, ws: Workers, w: nat, n: nat)
    requires w in ws
    requires Reaches(s0, Open5(map[5 := Readable], Spinning(5, Writable), [], ws[w := Failing(5)], {5}, {}, n, n, {5}))
    ensures Reaches(s0, Open5(map[5 := Readable], Polling, [], ws[w := FlagPending(5)], {5}, {}, n, n, {5}))
  {
    var t := Open5(map[5 := Readable], Spinning(5, Writable), [], ws[w := Failing(5)], {5}, {}, n, n, {5});
    assert ws[w := Failing(5)][w := FlagPending(5)] == ws[w := FlagPending(5)] && t.improv + {5} == {5};
    ReachedOn(Step, s0, t, Publish(w),
              Open5(map[5 := Readable], Spinning(5, Writable), [], ws[w := FlagPending(5)], {5}, {5}, n, n, {5}));
    LeaveSpin(s0, Writable, map[5 := Readable], ws[w := FlagPending(5)], {5}, n, {5});
  }

  /** The other worker completes a response on a connection that is to be kept. */
  lemma KeepWrite(s0: State, ws: Workers, n: nat)
    requires 1 in ws && Reaches(s0, Open5(map[], Spinning(5, Writable), [], ws[1 := Writing(5)], {5}, {}, n + 1, n, {5}))
    ensures Reaches(s0, Open5(map[5 := Readable], Spinning(5, Writable), [], ws[1 := Resetting(5)], {5}, {}, n + 1, n, {5}))
  {
    assert ws[1 := Writing(5)][1 := Resetting(5)] == ws[1 := Resetting(5)];
    ReachedOn(Step, s0, Open5(map[], Spinning(5, Writable), [], ws[1 := Writing(5)], {5}, {}, n + 1, n, {5}),
              WriteReturns(1, CompleteKeep),
              Open5(map[5 := Readable], Spinning(5, Writable), [], ws[1 := Resetting(5)], {5}, {}, n + 1, n, {5}));
  }

  /** The state before its init. */
  function BeforeReset(ws: Workers, n: nat): State {
    Open5(map[5 := Readable], Spinning(5, Writable), [], ws[1 := Resetting(5)], {5}, {}, n + 1, n, {5})
  }

  lemma ResetIsNotCalm(ws: Workers, n: nat)
    requires 0 in ws && ws[0] == FlagPending(5)
    ensures !Calm(BeforeReset(ws, n), WorkerReset(1))
  {
    assert BeforeReset(ws, n).workers[0] == FlagPending(5);
  }

  /** It resets the connection, over the flag of the first. */
  lemma ResetOver(s0: State, ws: Workers, n: nat)
    requires 1 in ws && Reaches(s0, BeforeReset(ws, n))
    ensures Reaches(s0, Open5(map[5 := Readable], Spinning(5, Writable), [], ws[1 := WriteDone(5)], {}, {}, n + 1, n + 1, {}))
  {
    var t := BeforeReset(ws, n);
    assert ws[1 := Resetting(5)][1 := WriteDone(5)] == ws[1 := WriteDone(5)];
    assert t.improv - {5} == {} && t.timerFlag - {5} == {} && t.writeTask - {5} == {} && t.failed - {5} == {};
    ReachedOn(Step, s0, t, WorkerReset(1),
              Open5(map[5 := Readable], Spinning(5, Writable), [], ws[1 := WriteDone(5)], {}, {}, n + 1, n + 1, {}));
  }

  /** The same with the flag stored. */
  function Flagged(main: MainPc, ws: Workers, improv: set<Conn>, n: nat): State {
    State(Reactor, 10000, {5}, map[5 := Readable], {5}, map[], main, [], ws, {}, improv, {5}, n, n, {})
  }

  /** The flag of the first worker lands ... */
  lemma FlagLandsLate(s0: State, ws: Workers, n: nat)
    requires 0 in ws && ws[0] == FlagPending(5)
    requires Reaches(s0, Open5(map[5 := Readable], Spinning(5, Writable), [], ws, {}, {}, n, n, {}))
    ensures Reaches(s0, Flagged(Spinning(5, Writable), ws[0 := Waiting], {}, n))
  {
    var s := Open5(map[5 := Readable], Spinning(5, Writable), [], ws, {}, {}, n, n, {});
    assert s.timerFlag + {5} == {5};
    ReachedOn(Step, s0, s, RaiseFlag(0), Flagged(Spinning(5, Writable), ws[0 := Waiting], {}, n));
  }

  /** ... and main sees it together with the second worker's `improv`. */
  lemma RemoveKept(s0: State, ws: Workers, n: nat)
    requires 1 in ws && ws[1] == WriteDone(5) && Reaches(s0, Flagged(Spinning(5, Writable), ws, {}, n))
    ensures Reaches(s0, Flagged(Removing(5), ws[1 := Waiting], {5}, n))
  {
    var s := Flagged(Spinning(5, Writable), ws, {}, n);
    assert s.improv + {5} == {5};
    ReachedOn(Step, s0, s, Publish(1), Flagged(Spinning(5, Writable), ws[1 := Waiting], {5}, n));
    SeeFlag(s0, ws[1 := Waiting], n);
  }

  lemma SeeFlag(s0: State, ws: Workers, n: nat)
    requires Reaches(s0, Flagged(Spinning(5, Writable), ws, {5}, n))
    ensures Reaches(s0, Flagged(Removing(5), ws, {5}, n))
  {
    ReachedOn(Step, s0, Flagged(Spinning(5, Writable), ws, {5}, n), SeeImprov, Flagged(Checking(5), ws, {5}, n));
    ReachedOn(Step, s0, Flagged(Checking(5), ws, {5}, n), CheckFlag, Flagged(Removing(5), ws, {5}, n));
  }

  lemma Start(s0: State)
    requires s0 == Quiet({}, map[], {}, IDLE_WORKERS, 0, {})
    ensures Reaches(s0, Open5(map[5 := Readable], Polling, [], IDLE_WORKERS, {}, {}, 0, 0, {}))
  {
    assert Run(s0, []) == Some(s0);
    AcceptFive(s0, {}, IDLE_WORKERS, 0, {});
  }

  /** The first request is answered and its connection closed, unseen. */
  lemma FirstResponse(s0: State)
    requires s0 == Quiet({}, map[], {}, IDLE_WORKERS, 0, {})
    ensures Reaches(s0, Open5(map[5 := Readable], Polling, [], IDLE_WORKERS[0 := FlagPending(5)], {5}, {}, 2, 2, {5}))
  {
    Start(s0);
    RequestRound(s0, IDLE_WORKERS, 0, {}, 0, {});
    CloseWrite(s0, IDLE_WORKERS, 0, 1);
    CloseUnseen(s0, IDLE_WORKERS, 0, 2);
  }

  /** The second, by the other worker, comes to the init that is not calm. */
  lemma SecondResponse(s0: State, ws: Workers)
    requires 1 in ws && ws[1] == Waiting
    requires Reaches(s0, Open5(map[5 := Readable], Polling, [], ws, {5}, {}, 2, 2, {5}))
    ensures Reaches(s0, BeforeReset(ws, 3))
  {
    RequestRound(s0, ws, 1, {5}, 2, {5});
    KeepWrite(s0, ws, 3);
  }

  /** Its reset, the late flag, and what main makes of them. */
  lemma RemoveAfterReset(s0: State, ws: Workers)
    requires 0 in ws && 1 in ws && ws[0] == FlagPending(5) && Reaches(s0, BeforeReset(ws, 3))
    ensures exists s :: Reaches(s0, s) && s.main == Removing(5) && 5 in s.open && 5 !in s.failed && 5 in s.armed
  {
    ResetOver(s0, ws, 3);
    FlagLandsLate(s0, ws[1 := WriteDone(5)], 4);
    RemoveKept(s0, ws[1 := WriteDone(5)][0 := Waiting], 4);
  }

  /**
   The guard on write's init is needed: with a flag still to be stored, main comes to remove
   the timer of a connection whose last response was complete and is to be kept.
   */
  lemma LateResetRemovesTimer(s0: State)
    requires s0 == Quiet({}, map[], {}, IDLE_WORKERS, 0, {})
    ensures Initial(s0)
    ensures exists s :: Reaches(s0, s) && !Calm(s, WorkerReset(1))
    ensures exists s :: Reaches(s0, s) && s.main == Removing(5) && 5 in s.open && 5 !in s.failed && 5 in s.armed
  {
    var ws := IDLE_WORKERS[0 := FlagPending(5)];
    FirstResponse(s0);
    SecondResponse(s0, ws);
    ResetIsNotCalm(ws, 3);
    RemoveAfterReset(s0, ws);
  }
}
