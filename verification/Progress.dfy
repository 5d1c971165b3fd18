/**
 That the server goes on: whoever has begun something can make the next step, whatever read,
 write or process decides, and main does not spin in vain.
 */
module Progress {
  import opened ThreadCounts
  import opened ConnectionOwnership
  import opened Runs
  import opened Wrappers

  /** The next step of a worker that has begun, with what read_once, write or process may decide. */
  function NextOf(pc: WorkerPc, w: nat, ok: bool, outcome: WriteOutcome, verdict: Verdict): Label
    requires !pc.Waiting?
  {
    match pc
    case Picked(_) => Begin(w)
    case Reading(_) => ReadReturns(w, ok)
    case ReadDone(_) => Publish(w)
    case Writing(_) => WriteReturns(w, outcome)
    case Resetting(_) => WorkerReset(w)
    case WriteDone(_) => Publish(w)
    case Failing(_) => Publish(w)
    case FlagPending(_) => RaiseFlag(w)
    case Processing(_) => Process(w, verdict)
    case Closing(_) => CloseFd(w)
    case Forgetting(_) => ForgetFd(w)
    case Rearming(_) => Rearm(w)
  }

  lemma WorkerGoesOn(s: State, w: nat, ok: bool, outcome: WriteOutcome, verdict: Verdict)
    requires w in s.workers && !s.workers[w].Waiting?
    ensures Step(s, NextOf(s.workers[w], w, ok, outcome, verdict)).Some?
  {
  }

  /** The next step of main inside an event. */
  function NextOfMain(s: State, ok: bool, outcome: WriteOutcome): Label
    requires s.main != Polling
  {
    match s.main
    case Handling(_, interest) =>
      if s.mode.Reactor? then AppendAndSpin else if interest.Readable? then MainRead(ok) else MainWrite(outcome)
    case Appending(_) => MainAppend
    case Spinning(_, _) => SeeImprov
    case Checking(_) => CheckFlag
    case Removing(_) => RemoveTimer
    case ClearingFlag(_) => ClearFlag
    case ClearingImprov(_) => ClearImprov
    case MainResetting(_) => MainReset
    case MainClosing(_) => MainClose
  }

  lemma MainGoesOn(s: State, ok: bool, outcome: WriteOutcome)
    requires s.main != Polling && !Awaited(s)
    ensures Step(s, NextOfMain(s, ok, outcome)).Some?
  {
  }

  /** Between events main can take up any event it has, and poll when it has none. */
  lemma PollingGoesOn(s: State, c: Conn)
    requires s.main == Polling
    ensures c in s.batch ==> Step(s, Dispatch(c)).Some?
    ensures s.batch == map[] && c in s.armed ==>
              Step(s, Poll(map[c := Ready(s.armed[c])])).Some? && Step(s, Poll(map[c := HungUp])).Some?
    ensures c !in s.open ==> Step(s, Accept(c)).Some?
    ensures s.batch == map[] && c in s.open ==> Step(s, Expire(c)).Some?
  {
  }

  /**
   Main result: in a state of a calm run in which main spins, main or some worker can make a
   step, so that the spin is not a deadlock.
   */
  lemma SpinGoesOn(s0: State, ls: seq<Label>)
    requires Initial(s0) && s0.mode.Reactor? && Run(s0, ls).Some? && CalmRun(s0, ls) && Run(s0, ls).value.main.Spinning?
    requires Run(s0, ls).value.workers != map[]
    ensures exists l: Label :: (l == SeeImprov || IsWorkerLabel(l)) && Step(Run(s0, ls).value, l).Some?
  {
    InitialInv(s0);
    RunKeeps(s0, ls);
    RunMode(s0, ls);
    var s := Run(s0, ls).value;
    if Awaited(s) { SomebodyWorks(s); } else { assert Step(s, SeeImprov).Some?; }
  }

  lemma SomebodyWorks(s: State)
    requires ReactorHandshake(s) && Awaited(s) && s.workers != map[]
    ensures exists l: Label :: IsWorkerLabel(l) && Step(s, l).Some?
  {
    var w :| w in s.workers;
    if s.workers[w].Waiting? {
      if s.queue != [] {
        assert Step(s, Take(w)).Some?;
      } else {
        var v :| v in Those(s.workers, Unpublished());
        WorkerGoesOn(s, v, true, Again, NeedMore);
      }
    } else {
      WorkerGoesOn(s, w, true, Again, NeedMore);
    }
  }

  // ---------- one request, nobody else moving ----------

  /** What the labels of one worker lead to. */
  lemma Advance(s: State, l: Label, t: State, ls: seq<Label>)
    requires Step(s, l).Some? && Step(s, l).value.workers == t.workers
    requires Step(s, l).value == t.(workers := Step(s, l).value.workers)
    ensures Run(s, [l] + ls) == Run(t, ls)
  {
    RunOfFirst(Step, s, l, t, ls);
  }

  /** The end of process: what each decision leaves of the connection, which is open and has its descriptor. */
  lemma ProcessAlone(s: State, w: nat, c: Conn)
    requires w in s.workers && s.workers[w] == Processing(c) && c in s.open && c in s.sock
    ensures Run(s, [Process(w, NeedMore)] + []) ==
            Some(s.(armed := s.armed[c := Readable], workers := s.workers[w := Waiting]))
    ensures Run(s, [Process(w, Respond)] + ([Rearm(w)] + [])) ==
            Some(s.(armed := s.armed[c := Writable], workers := s.workers[w := Waiting]))
    ensures Run(s, [Process(w, Refuse)] + ([CloseFd(w)] + ([ForgetFd(w)] + ([Rearm(w)] + [])))) ==
            Some(s.(open := s.open - {c}, armed := s.armed - {c}, sock := s.sock - {c}, workers := s.workers[w := Waiting]))
  {
    Advance(s, Process(w, NeedMore), s.(armed := s.armed[c := Readable], workers := s.workers[w := Waiting]), []);
    var r := s.(workers := s.workers[w := Rearming(c)]);
    Advance(s, Process(w, Respond), r, [Rearm(w)] + []);
    Advance(r, Rearm(w), s.(armed := s.armed[c := Writable], workers := s.workers[w := Waiting]), []);
    RefuseAlone(s, w, c);
  }

  lemma RefuseAlone(s: State, w: nat, c: Conn)
    requires w in s.workers && s.workers[w] == Processing(c) && c in s.open && c in s.sock
    ensures Run(s, [Process(w, Refuse)] + ([CloseFd(w)] + ([ForgetFd(w)] + ([Rearm(w)] + [])))) ==
            Some(s.(open := s.open - {c}, armed := s.armed - {c}, sock := s.sock - {c}, workers := s.workers[w := Waiting]))
  {
    var s1 := s.(workers := s.workers[w := Closing(c)]);
    var s2 := s.(open := s.open - {c}, armed := s.armed - {c}, workers := s.workers[w := Forgetting(c)]);
    Advance(s, Process(w, Refuse), s1, [CloseFd(w)] + ([ForgetFd(w)] + ([Rearm(w)] + [])));
    Advance(s1, CloseFd(w), s2, [ForgetFd(w)] + ([Rearm(w)] + []));
    ForgetAlone(s2, w, c);
    assert s2.workers[w := Waiting] == s.workers[w := Waiting];
  }

  /** The last modfd finds no descriptor. */
  lemma ForgetAlone(s: State, w: nat, c: Conn)
    requires w in s.workers && s.workers[w] == Forgetting(c)
    ensures Run(s, [ForgetFd(w)] + ([Rearm(w)] + [])) == Some(s.(sock := s.sock - {c}, workers := s.workers[w := Waiting]))
  {
    var t := s.(sock := s.sock - {c}, workers := s.workers[w := Rearming(c)]);
    Advance(s, ForgetFd(w), t, [Rearm(w)] + []);
    Advance(t, Rearm(w), t.(workers := s.workers[w := Waiting]), []);
  }
}
