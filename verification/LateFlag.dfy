/**
 Another run that is not calm: a failing task stores `timer_flag` only after the main thread
 has looked at it, the timer expires, and the flag lands in the next connection on the slot.
 */
module LateFlag {
  import opened ConnectionOwnership
  import opened SlotReuse
  import opened Runs
  import opened Wrappers

  type Workers = map<nat, WorkerPc>

  /** A server in reactor mode, with main between two events and `n` tasks appended and read. */
  function Quiet(open: set<Conn>, armed: map<Conn, Interest>, sock: set<Conn>, ws: Workers, n: nat, failed: set<Conn>): State {
    State(Reactor, 10000, open, armed, sock, map[], Polling, [], ws, {}, {}, {}, n, n, failed)
  }

  /** The same with main in a handshake on descriptor 5. */
  function Busy5(main: MainPc, queue: seq<Conn>, ws: Workers, improv: set<Conn>, flag: set<Conn>,
                 appends: nat, finished: nat, failed: set<Conn>): State {
    State(Reactor, 10000, {5}, map[], {5}, map[], main, queue, ws, {}, improv, flag, appends, finished, failed)
  }

  lemma AcceptFive(s0: State, sock: set<Conn>, ws: Workers, n: nat, failed: set<Conn>)
    requires Reaches(s0, Quiet({}, map[], sock, ws, n, failed)) && sock <= {5} && failed <= {5}
    ensures Reaches(s0, Quiet({5}, map[5 := Readable], {5}, ws, n, {}))
  {
    var s := Quiet({}, map[], sock, ws, n, failed);
    assert s.sock + {5} == {5} && s.open + {5} == {5} && s.failed - {5} == {};
    assert s.improv - {5} == {} && s.timerFlag - {5} == {} && s.writeTask - {5} == {};
    ReachedOn(Step, s0, s, Accept(5), Quiet({5}, map[5 := Readable], {5}, ws, n, {}));
  }

  /** Its first bytes arrive, and main takes up the event. */
  lemma PollFive(s0: State, ws: Workers, n: nat)
    requires Reaches(s0, Quiet({5}, map[5 := Readable], {5}, ws, n, {}))
    ensures Reaches(s0, Busy5(Handling(5, Readable), [], ws, {}, {}, n, n, {}))
  {
    var s, event := Quiet({5}, map[5 := Readable], {5}, ws, n, {}), map[5 := Ready(Readable)];
    var t := State(Reactor, 10000, {5}, map[], {5}, event, Polling, [], ws, {}, {}, {}, n, n, {});
    assert s.armed - event.Keys == map[];
    ReachedOn(Step, s0, s, Poll(event), t);
    assert event - {5} == map[];
    ReachedOn(Step, s0, t, Dispatch(5), Busy5(Handling(5, Readable), [], ws, {}, {}, n, n, {}));
  }

  lemma AppendFive(s0: State, ws: Workers, n: nat)
    requires Reaches(s0, Busy5(Handling(5, Readable), [], ws, {}, {}, n, n, {}))
    ensures Reaches(s0, Busy5(Spinning(5, Readable), [5], ws, {}, {}, n + 1, n, {}))
  {
    var s := Busy5(Handling(5, Readable), [], ws, {}, {}, n, n, {});
    assert s.queue + [5] == [5] && s.writeTask - {5} == {};
    ReachedOn(Step, s0, s, AppendAndSpin,
              Busy5(Spinning(5, Readable), [5], ws, {}, {}, n + 1, n, {}));
  }

  /** Worker `w` takes the task ... */
  lemma TakeFive(s0: State, ws: Workers, w: nat, n: nat)
    requires w in ws && ws[w] == Waiting && Reaches(s0, Busy5(Spinning(5, Readable), [5], ws, {}, {}, n + 1, n, {}))
    ensures Reaches(s0, Busy5(Spinning(5, Readable), [], ws[w := Reading(5)], {}, {}, n + 1, n, {}))
  {
    var s := Busy5(Spinning(5, Readable), [5], ws, {}, {}, n + 1, n, {});
    var t := Busy5(Spinning(5, Readable), [], ws[w := Picked(5)], {}, {}, n + 1, n, {});
    assert s.queue[1..] == [];
    ReachedOn(Step, s0, s, Take(w), t);
    assert ws[w := Picked(5)][w := Reading(5)] == ws[w := Reading(5)];
    ReachedOn(Step, s0, t, Begin(w), Busy5(Spinning(5, Readable), [], ws[w := Reading(5)], {}, {}, n + 1, n, {}));
  }

  /** ... and reads, with success ... */
  lemma ReadWellFive(s0: State, ws: Workers, w: nat, n: nat)
    requires w in ws && Reaches(s0, Busy5(Spinning(5, Readable), [], ws[w := Reading(5)], {}, {}, n + 1, n, {}))
    ensures Reaches(s0, Busy5(Spinning(5, Readable), [], ws[w := ReadDone(5)], {}, {}, n + 1, n + 1, {}))
  {
    assert ws[w := Reading(5)][w := ReadDone(5)] == ws[w := ReadDone(5)];
    ReachedOn(Step, s0, Busy5(Spinning(5, Readable), [], ws[w := Reading(5)], {}, {}, n + 1, n, {}), ReadReturns(w, true),
              Busy5(Spinning(5, Readable), [], ws[w := ReadDone(5)], {}, {}, n + 1, n + 1, {}));
  }

  /** ... or without, ... */
  lemma ReadBadlyFive(s0: State, ws: Workers, w: nat, n: nat)
    requires w in ws && Reaches(s0, Busy5(Spinning(5, Readable), [], ws[w := Reading(5)], {}, {}, n + 1, n, {}))
    ensures Reaches(s0, Busy5(Spinning(5, Readable), [], ws[w := Failing(5)], {}, {}, n + 1, n + 1, {5}))
  {
    var s := Busy5(Spinning(5, Readable), [], ws[w := Reading(5)], {}, {}, n + 1, n, {});
    assert ws[w := Reading(5)][w := Failing(5)] == ws[w := Failing(5)] && s.failed + {5} == {5};
    ReachedOn(Step, s0, s, ReadReturns(w, false),
              Busy5(Spinning(5, Readable), [], ws[w := Failing(5)], {}, {}, n + 1, n + 1, {5}));
  }

  /** ... up to its store of `improv`. */
  lemma PublishFive(s0: State, ws: Workers, w: nat, n: nat, before: WorkerPc, after: WorkerPc, failed: set<Conn>)
    requires w in ws && (before, after) in {(ReadDone(5), Processing(5)), (Failing(5), FlagPending(5))}
    requires Reaches(s0, Busy5(Spinning(5, Readable), [], ws[w := before], {}, {}, n, n, failed))
    ensures Reaches(s0, Busy5(Spinning(5, Readable), [], ws[w := after], {5}, {}, n, n, failed))
  {
    var s := Busy5(Spinning(5, Readable), [], ws[w := before], {}, {}, n, n, failed);
    assert ws[w := before][w := after] == ws[w := after] && s.improv + {5} == {5};
    ReachedOn(Step, s0, s, Publish(w), Busy5(Spinning(5, Readable), [], ws[w := after], {5}, {}, n, n, failed));
  }

  lemma ReadFive(s0: State, ws: Workers, w: nat, n: nat, ok: bool)
    requires w in ws && Reaches(s0, Busy5(Spinning(5, Readable), [], ws[w := Reading(5)], {}, {}, n + 1, n, {}))
    ensures Reaches(s0, Busy5(Spinning(5, Readable), [], ws[w := if ok then Processing(5) else FlagPending(5)],
                              {5}, {}, n + 1, n + 1, if ok then {} else {5}))
  {
    if ok {
      ReadWellFive(s0, ws, w, n);
      PublishFive(s0, ws, w, n + 1, ReadDone(5), Processing(5), {});
    } else {
      ReadBadlyFive(s0, ws, w, n);
      PublishFive(s0, ws, w, n + 1, Failing(5), FlagPending(5), {5});
    }
  }

  lemma ServeFive(s0: State, sock: set<Conn>, ws: Workers, w: nat, n: nat, failed: set<Conn>, ok: bool)
    requires Reaches(s0, Quiet({}, map[], sock, ws, n, failed)) && sock <= {5} && failed <= {5}
    requires w in ws && ws[w] == Waiting
    ensures Reaches(s0, Busy5(Spinning(5, Readable), [], ws[w := if ok then Processing(5) else FlagPending(5)],
                              {5}, {}, n + 1, n + 1, if ok then {} else {5}))
  {
    AcceptFive(s0, sock, ws, n, failed);
    PollFive(s0, ws, n);
    AppendFive(s0, ws, n);
    TakeFive(s0, ws, w, n);
    ReadFive(s0, ws, w, n, ok);
  }

  /** Main sees `improv` and tests the flag. */
  lemma CheckFive(s0: State, ws: Workers, flag: set<Conn>, n: nat, failed: set<Conn>)
    requires Reaches(s0, Busy5(Spinning(5, Readable), [], ws, {5}, flag, n, n, failed))
    ensures Reaches(s0, Busy5(if 5 in flag then Removing(5) else ClearingImprov(5), [], ws, {5}, flag, n, n, failed))
  {
    var s := Busy5(Spinning(5, Readable), [], ws, {5}, flag, n, n, failed);
    var t := Busy5(Checking(5), [], ws, {5}, flag, n, n, failed);
    ReachedOn(Step, s0, s, SeeImprov, t);
    ReachedOn(Step, s0, t, CheckFlag,
              Busy5(if 5 in flag then Removing(5) else ClearingImprov(5), [], ws, {5}, flag, n, n, failed));
  }

  /** The flag not being there, main ends the handshake; later the timer expires. */
  lemma ForgetFive(s0: State, ws: Workers, n: nat, failed: set<Conn>)
    requires Reaches(s0, Busy5(ClearingImprov(5), [], ws, {5}, {}, n, n, failed))
    ensures Reaches(s0, Quiet({}, map[], {5}, ws, n, failed))
  {
    var s, t := Busy5(ClearingImprov(5), [], ws, {5}, {}, n, n, failed), Quiet({5}, map[], {5}, ws, n, failed);
    assert {5} - {5} == s.improv - {5} == {};
    ReachedOn(Step, s0, s, ClearImprov, t);
    ReachedOn(Step, s0, t, Expire(5), Quiet({}, map[], {5}, ws, n, failed));
  }

  /** The flag of the first task lands in the second connection on the slot. */
  lemma FlagLands(s0: State, ws: Workers, n: nat)
    requires 0 in ws && ws[0] == FlagPending(5) && Reaches(s0, Busy5(Spinning(5, Readable), [], ws, {5}, {}, n, n, {}))
    ensures Reaches(s0, Busy5(Spinning(5, Readable), [], ws[0 := Waiting], {5}, {5}, n, n, {}))
  {
    var s := Busy5(Spinning(5, Readable), [], ws, {5}, {}, n, n, {});
    assert s.timerFlag + {5} == {5};
    ReachedOn(Step, s0, s, RaiseFlag(0),
              Busy5(Spinning(5, Readable), [], ws[0 := Waiting], {5}, {5}, n, n, {}));
  }

  /** A read fails, main does not see the flag, and the timer expires. */
  lemma FailUnseen(s0: State)
    requires s0 == Quiet({}, map[], {}, IDLE_WORKERS, 0, {})
    ensures Reaches(s0, Quiet({}, map[], {5}, IDLE_WORKERS[0 := FlagPending(5)], 1, {5}))
  {
    assert Run(s0, []) == Some(s0);
    ServeFive(s0, {}, IDLE_WORKERS, 0, 0, {}, false);
    CheckFive(s0, IDLE_WORKERS[0 := FlagPending(5)], {}, 1, {5});
    ForgetFive(s0, IDLE_WORKERS[0 := FlagPending(5)], 1, {5});
  }

  /**
   The second guard on accept is needed: with a flag still to be stored, main comes to remove
   the timer of a new connection although its only read has succeeded.
   */
  lemma LateFlagRemovesTimer(s0: State)
    requires s0 == Quiet({}, map[], {}, IDLE_WORKERS, 0, {})
    ensures Initial(s0)
    ensures exists s ::
              Reaches(s0, s) && s.main == Removing(5) && 5 in s.open && 5 !in s.failed && WorkerRuns(s, 1, 5)
  {
    FailUnseen(s0);
    var ws := IDLE_WORKERS[0 := FlagPending(5)];
    ServeFive(s0, {5}, ws, 1, 1, {5}, true);
    FlagLands(s0, ws[1 := Processing(5)], 2);
    CheckFive(s0, ws[1 := Processing(5)][0 := Waiting], {5}, 2, {});
  }
}
