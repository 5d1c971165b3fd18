/**
 What becomes of a connection that the server has given up: for a failed read or write, a
 response without keep-alive, a refused request, a hang-up or its timer. It is closed, and
 no other is; in reactor mode unless the flag of the failure came too late to be seen.
 */
module GivenUp {
  import opened ThreadCounts
  import opened ConnectionOwnership
  import opened EventInterest
  import opened Runs
  import opened Wrappers

  /** The connections given up since they were accepted or, being open, made new by init. */
  function GivenUpAfter(s: State, gone: set<Conn>, l: Label): set<Conn> {
    match l
    case Accept(c) => gone - {c}
    case Expire(c) => gone + {c}
    case Dispatch(c) => if c in s.batch && s.batch[c].HungUp? then gone + {c} else gone
    case MainRead(ok) => if !ok && s.main.Handling? then gone + {s.main.c} else gone
    case MainWrite(outcome) =>
      if (outcome.Error? || outcome.CompleteClose?) && s.main.Handling? then gone + {s.main.c} else gone
    case ReadReturns(w, ok) =>
      if !ok && w in s.workers && s.workers[w].Reading? then gone + {s.workers[w].c} else gone
    case WriteReturns(w, outcome) =>
      if (outcome.Error? || outcome.CompleteClose?) && w in s.workers && s.workers[w].Writing? then
        gone + {s.workers[w].c} else gone
    case Process(w, verdict) =>
      if verdict.Refuse? && w in s.workers && s.workers[w].Processing? then gone + {s.workers[w].c} else gone
    case WorkerReset(w) =>
      if w in s.workers && s.workers[w].Resetting? && s.workers[w].c in s.open then gone - {s.workers[w].c} else gone
    case MainReset => if s.main.MainResetting? && s.main.c in s.open then gone - {s.main.c} else gone
    case _ => gone
  }

  function GivenUpIn(s: State, gone: set<Conn>, ls: seq<Label>): set<Conn>
    decreases |ls|
  {
    if ls == [] || Step(s, ls[0]).None? then gone
    else GivenUpIn(Step(s, ls[0]).value, GivenUpAfter(s, gone, ls[0]), ls[1..])
  }

  function AcceptedAfter(accepted: set<Conn>, l: Label): set<Conn> { if l.Accept? then accepted + {l.c} else accepted }

  function AcceptedIn(accepted: set<Conn>, ls: seq<Label>): set<Conn>
    decreases |ls|
  {
    if ls == [] then accepted else AcceptedIn(AcceptedAfter(accepted, ls[0]), ls[1..])
  }

  /** A worker has the failure or the refusal of `c` in hand. */
  predicate Reporting(s: State, c: Conn) {
    exists w | w in s.workers :: s.workers[w] == Failing(c) || s.workers[w] == FlagPending(c) || s.workers[w] == Closing(c)
  }

  predicate BeingClosed(s: State, c: Conn) {
    s.main == MainClosing(c) || s.main == Removing(c) || c in s.timerFlag || Reporting(s, c)
  }

  /** Given up means closed, or about to be. */
  predicate NoneKept(s: State, gone: set<Conn>) {
    && (forall c | c in gone && c in s.open :: BeingClosed(s, c))
    && (s.main.ClearingFlag? ==> s.main.c !in s.open)
  }

  /** Closed means given up. */
  predicate NoneTaken(s: State, gone: set<Conn>, accepted: set<Conn>) {
    && (forall c | c in accepted && c !in s.open :: c in gone)
    && (s.failed * s.open <= gone) && (s.main.MainClosing? && s.main.c in s.open ==> s.main.c in gone)
    && (forall w | w in s.workers && s.workers[w].Closing? && s.workers[w].c in s.open :: s.workers[w].c in gone)
  }

  /** What a step is to a report in another worker's hand. */
  lemma WorkerKeepsReport(s: State, l: Label, w: nat)
    requires w in s.workers && (s.workers[w].Failing? || s.workers[w].FlagPending? || s.workers[w].Closing?)
    requires WorkerStep(s, l, w, s.workers[w]).Some?
    ensures var (t, c) := (WorkerStep(s, l, w, s.workers[w]).value, s.workers[w].c);
            w in t.workers && (t.workers[w] == FlagPending(c) || c in t.timerFlag || c !in t.open)
  {
  }

  lemma OtherWorkerStays(s: State, l: Label, w: nat, v: nat)
    requires w in s.workers && v in s.workers && v != w && WorkerStep(s, l, w, s.workers[w]).Some?
    ensures var t := WorkerStep(s, l, w, s.workers[w]).value; v in t.workers && t.workers[v] == s.workers[v]
  {
    var pc := s.workers[w];
    if pc.Waiting? || pc.Picked? {
      PickShape(s, l, w);
    } else if pc.Writing? || pc.Resetting? || pc.WriteDone? {
      WriteShape(s, l, w);
    } else if pc.Reading? || pc.ReadDone? || pc.Failing? || pc.FlagPending? {
      ReadShape(s, l, w);
    } else {
      ProcessShape(s, l, w);
    }
  }

  lemma MainLeavesWorkers(s: State, l: Label)
    requires MainStep(s, l).Some?
    ensures MainStep(s, l).value.workers == s.workers
  {
  }

  /** Reports go on until they are flags, or the descriptor is closed. */
  lemma ReportGoesOn(s: State, l: Label, c: Conn)
    requires Step(s, l).Some? && Reporting(s, c)
    ensures var t := Step(s, l).value; Reporting(t, c) || c in t.timerFlag || c !in t.open
  {
    var w :| w in s.workers && (s.workers[w] == Failing(c) || s.workers[w] == FlagPending(c) || s.workers[w] == Closing(c));
    if !IsWorkerLabel(l) {
      MainLeavesWorkers(s, l);
    } else if l.w == w {
      WorkerKeepsReport(s, l, w);
    } else {
      OtherWorkerStays(s, l, l.w, w);
    }
  }

  lemma ReportBegins(s: State, l: Label, w: nat)
    requires w in s.workers && WorkerStep(s, l, w, s.workers[w]).Some?
    requires (s.workers[w].Reading? && l.ReadReturns? && !l.ok) ||
             (s.workers[w].Writing? && l.WriteReturns? && (l.outcome.Error? || l.outcome.CompleteClose?)) ||
             (s.workers[w].Processing? && l.Process? && l.verdict.Refuse?)
    ensures Reporting(WorkerStep(s, l, w, s.workers[w]).value, s.workers[w].c)
  {
    var pc := WorkerStep(s, l, w, s.workers[w]).value.workers[w];
    assert pc == Failing(s.workers[w].c) || pc == Closing(s.workers[w].c);
  }

  /** What a worker's step does to flags and descriptors. */
  lemma WorkerFrame(s: State, l: Label, w: nat)
    requires w in s.workers && WorkerStep(s, l, w, s.workers[w]).Some? && IsWorkerLabel(l) && l.w == w
    ensures var t := WorkerStep(s, l, w, s.workers[w]).value;
            && t.main == s.main && t.open <= s.open
            && forall c | c in s.timerFlag :: c in t.timerFlag || (l.WorkerReset? && s.workers[w] == Resetting(c))
  {
  }

  lemma WorkerKeepsNone(s: State, gone: set<Conn>, l: Label)
    requires NoneKept(s, gone) && Step(s, l).Some? && IsWorkerLabel(l)
    ensures NoneKept(Step(s, l).value, GivenUpAfter(s, gone, l))
  {
    var t, gone' := Step(s, l).value, GivenUpAfter(s, gone, l);
    WorkerFrame(s, l, l.w);
    forall c | c in gone' && c in t.open ensures BeingClosed(t, c) {
      if c in gone {
        assert BeingClosed(s, c);
        if Reporting(s, c) { ReportGoesOn(s, l, c); }
      } else {
        ReportBegins(s, l, l.w);
      }
    }
  }

  /** Accepting, expiring, polling, dispatching. */
  lemma LoopKeepsNone(s: State, gone: set<Conn>, l: Label)
    requires NoneKept(s, gone) && s.main == Polling && LoopStep(s, l).Some?
    ensures NoneKept(LoopStep(s, l).value, GivenUpAfter(s, gone, l))
  {
    var t, gone' := LoopStep(s, l).value, GivenUpAfter(s, gone, l);
    assert t.workers == s.workers;
    forall c | c in gone' && c in t.open ensures BeingClosed(t, c) {
      assert BeingClosed(s, c);
      assert Reporting(s, c) ==> Reporting(t, c);
    }
  }

  lemma MainKeepsNone(s: State, gone: set<Conn>, l: Label)
    requires NoneKept(s, gone) && s.main != Polling && MainStep(s, l).Some? && !IsWorkerLabel(l)
    ensures NoneKept(MainStep(s, l).value, GivenUpAfter(s, gone, l))
  {
    var t, gone' := MainStep(s, l).value, GivenUpAfter(s, gone, l);
    MainLeavesWorkers(s, l);
    forall c | c in gone' && c in t.open ensures BeingClosed(t, c) {
      if c in gone && c in s.open {
        assert BeingClosed(s, c);
        assert Reporting(s, c) ==> Reporting(t, c);
      }
    }
  }

  lemma StepKeepsNone(s: State, gone: set<Conn>, l: Label)
    requires NoneKept(s, gone) && Step(s, l).Some?
    ensures NoneKept(Step(s, l).value, GivenUpAfter(s, gone, l))
  {
    if IsWorkerLabel(l) {
      WorkerKeepsNone(s, gone, l);
    } else if s.main == Polling {
      LoopKeepsNone(s, gone, l);
    } else {
      MainKeepsNone(s, gone, l);
    }
  }

  /** Nobody is about to close a slot that this step makes new. */
  predicate FreshSlot(s: State, l: Label) {
    match l
    case Accept(c) => NoneClosing(s, c)
    case WorkerReset(w) => w in s.workers && s.workers[w].Resetting? ==> NoneClosing(s, s.workers[w].c)
    case MainReset => s.main.MainResetting? ==> NoneClosing(s, s.main.c)
    case _ => true
  }

  predicate NoneClosing(s: State, c: Conn) {
    s.main != MainClosing(c) && forall w | w in s.workers :: s.workers[w] != Closing(c)
  }

  lemma FreshIsAlone(s: State, l: Label)
    requires Inv(s) && Step(s, l).Some? && Calm(s, l)
    ensures FreshSlot(s, l)
  {
    if l.Accept? || l.MainReset? {
      var c := if l.Accept? then l.c else s.main.c;
      assert Held(s, c) <= 1;
      forall w | w in s.workers ensures s.workers[w] != Closing(c) {
        if s.workers[w] == Closing(c) { CountPositive(s.workers, w, Busy(c)); }
      }
    } else if l.WorkerReset? {
      OnlyHolder(s, l.w);
    }
  }

  lemma PickTakesNone(s: State, gone: set<Conn>, accepted: set<Conn>, l: Label, w: nat)
    requires NoneTaken(s, gone, accepted) && w in s.workers && PickStep(s, l, w, s.workers[w]).Some?
    ensures NoneTaken(PickStep(s, l, w, s.workers[w]).value, gone, accepted)
  {
  }

  lemma ReadTakesNone(s: State, gone: set<Conn>, accepted: set<Conn>, l: Label, w: nat)
    requires NoneTaken(s, gone, accepted) && w in s.workers && ReadStep(s, l, w, s.workers[w]).Some?
    requires l.ReadReturns? ==> l.w == w
    ensures NoneTaken(ReadStep(s, l, w, s.workers[w]).value,
                      if l.ReadReturns? then GivenUpAfter(s, gone, l) else gone, accepted)
  {
  }

  lemma WriteTakesNone(s: State, gone: set<Conn>, accepted: set<Conn>, l: Label, w: nat)
    requires NoneTaken(s, gone, accepted) && w in s.workers && s.workers[w].Writing? && l.WriteReturns? && l.w == w
    ensures NoneTaken(WriteReturn(s, s.workers[w].c, w, l.outcome), GivenUpAfter(s, gone, l), accepted)
  {
  }

  lemma ProcessTakesNone(s: State, gone: set<Conn>, accepted: set<Conn>, l: Label, w: nat)
    requires NoneTaken(s, gone, accepted) && w in s.workers && ProcessStep(s, l, w, s.workers[w]).Some?
    requires l.Process? ==> l.w == w
    ensures NoneTaken(ProcessStep(s, l, w, s.workers[w]).value, if l.Process? then GivenUpAfter(s, gone, l) else gone, accepted)
  {
  }

  lemma WorkerTakesNone(s: State, gone: set<Conn>, accepted: set<Conn>, l: Label, w: nat)
    requires NoneTaken(s, gone, accepted) && IsWorkerLabel(l) && l.w == w && w in s.workers && FreshSlot(s, l)
    requires WorkerStep(s, l, w, s.workers[w]).Some?
    ensures NoneTaken(WorkerStep(s, l, w, s.workers[w]).value, GivenUpAfter(s, gone, l), accepted)
  {
    var pc := s.workers[w];
    if pc.Waiting? || pc.Picked? {
      PickTakesNone(s, gone, accepted, l, w);
    } else if pc.Writing? {
      WriteTakesNone(s, gone, accepted, l, w);
    } else if pc.Reading? || pc.ReadDone? || pc.Failing? || pc.FlagPending? {
      ReadTakesNone(s, gone, accepted, l, w);
    } else if !pc.Resetting? && !pc.WriteDone? {
      ProcessTakesNone(s, gone, accepted, l, w);
    }
  }

  lemma LoopTakesNone(s: State, gone: set<Conn>, accepted: set<Conn>, l: Label)
    requires NoneTaken(s, gone, accepted) && s.main == Polling && LoopStep(s, l).Some? && FreshSlot(s, l)
    ensures NoneTaken(LoopStep(s, l).value, GivenUpAfter(s, gone, l), AcceptedAfter(accepted, l))
  {
  }

  lemma MainTakesNone(s: State, gone: set<Conn>, accepted: set<Conn>, l: Label)
    requires NoneTaken(s, gone, accepted) && FlagsHonest(s) && s.main != Polling && !IsWorkerLabel(l) && MainStep(s, l).Some?
    requires FreshSlot(s, l)
    ensures NoneTaken(MainStep(s, l).value, GivenUpAfter(s, gone, l), accepted)
  {
  }

  lemma StepTakesNone(s: State, gone: set<Conn>, accepted: set<Conn>, l: Label)
    requires NoneTaken(s, gone, accepted) && FlagsHonest(s) && Step(s, l).Some? && FreshSlot(s, l)
    ensures NoneTaken(Step(s, l).value, GivenUpAfter(s, gone, l), AcceptedAfter(accepted, l))
  {
    if IsWorkerLabel(l) {
      WorkerTakesNone(s, gone, accepted, l, l.w);
    } else if s.main == Polling {
      LoopTakesNone(s, gone, accepted, l);
    } else {
      MainTakesNone(s, gone, accepted, l);
    }
  }

  lemma {:induction false} RunFollows(s: State, gone: set<Conn>, accepted: set<Conn>, ls: seq<Label>)
    requires Inv(s) && NoneKept(s, gone) && NoneTaken(s, gone, accepted) && Run(s, ls).Some? && CalmRun(s, ls)
    ensures var t := Run(s, ls).value;
            Inv(t) && NoneKept(t, GivenUpIn(s, gone, ls)) && NoneTaken(t, GivenUpIn(s, gone, ls), AcceptedIn(accepted, ls))
    decreases |ls|
  {
    if ls != [] {
      StepKeepsExactlyWhenCalm(s, ls[0]);
      StepKeepsNone(s, gone, ls[0]);
      FreshIsAlone(s, ls[0]);
      StepTakesNone(s, gone, accepted, ls[0]);
      RunFollows(Step(s, ls[0]).value, GivenUpAfter(s, gone, ls[0]), AcceptedAfter(accepted, ls[0]), ls[1..]);
    }
  }

  /** Nobody is about to close `c`. */
  predicate AtRest(s: State, c: Conn) { s.main == Polling && forall w | w in s.workers :: !At(s.workers[w], c) }

  /**
   Main result: when a calm run from the start has come to rest, a connection that was given up
   is closed, or its flag came too late and still stands; and only one that was given up is closed.
   In proactor mode there are no flags.
   */
  lemma GivenUpIsClosed(s0: State, ls: seq<Label>, c: Conn)
    requires Initial(s0) && Run(s0, ls).Some? && CalmRun(s0, ls) && AtRest(Run(s0, ls).value, c)
    requires c in AcceptedIn({}, ls)
    ensures var (s, gone) := (Run(s0, ls).value, GivenUpIn(s0, {}, ls));
            && (c in gone && c in s.open ==> s.mode.Reactor? && c in s.timerFlag)
            && (c !in s.open ==> c in gone)
  {
    InitialInv(s0);
    RunFollows(s0, {}, {}, ls);
    var s, gone := Run(s0, ls).value, GivenUpIn(s0, {}, ls);
    if c in gone && c in s.open {
      assert BeingClosed(s, c);
      assert forall w | w in s.workers :: !At(s.workers[w], c);
    }
  }

  // ---------- the end of a handshake ----------

  lemma RemoveAndClear(s: State, c: Conn)
    requires s.main == Removing(c)
    ensures Run(s, [RemoveTimer, ClearFlag]) ==
            Some(Close(s, c).(timerFlag := s.timerFlag - {c}, main := ClearingImprov(c)))
  {
    var t := Close(s, c).(main := ClearingFlag(c));
    RunOfFirst(Step, s, RemoveTimer, t, [ClearFlag]);
    RunOfOne(Step, t, ClearFlag);
    assert [RemoveTimer] + [ClearFlag] == [RemoveTimer, ClearFlag];
  }

  lemma HandshakeEnds(s: State, c: Conn)
    requires s.main == ClearingImprov(c)
    ensures Step(s, ClearImprov) == Some(s.(improv := s.improv - {c}, main := Polling))
  {
  }

  /**
   What main does once it has seen improv, when nobody else moves: a flag that it finds closes
   the connection and is cleared. HandshakeEnds is the last step, with or without a flag.
   */
  lemma HandshakeAlone(s: State, c: Conn)
    requires s.main == Checking(c)
    ensures Step(s, CheckFlag) == Some(s.(main := if c in s.timerFlag then Removing(c) else ClearingImprov(c)))
    ensures c in s.timerFlag ==>
              Run(Step(s, CheckFlag).value, [RemoveTimer, ClearFlag]) ==
              Some(Close(s, c).(timerFlag := s.timerFlag - {c}, main := ClearingImprov(c)))
  {
    if c in s.timerFlag { RemoveAndClear(s.(main := Removing(c)), c); }
  }

  // ---------- events of open connections ----------

  /** What main still has to do is about open connections. */
  predicate EventsOpen(s: State) {
    && (forall c | c in s.batch :: c in s.open)
    && (s.main.Handling? ==> s.main.c in s.open)
    && (s.main != Polling ==> s.main.c !in s.batch)
  }

  /** Main and the worker that closes hold a connection that is in no batch. */
  predicate ClosersHold(s: State) {
    && (s.main.Handling? ==> s.main.c !in s.batch)
    && forall w | w in s.workers && s.workers[w].Closing? ::
         s.workers[w].c !in s.batch && !(s.main.Handling? && s.main.c == s.workers[w].c)
  }

  lemma HoldersApart(s: State)
    requires Inv(s)
    ensures ClosersHold(s)
  {
    forall w | w in s.workers && s.workers[w].Closing?
      ensures s.workers[w].c !in s.batch && !(s.main.Handling? && s.main.c == s.workers[w].c)
    {
      OnlyHolder(s, w);
    }
    if s.main.Handling? { MainOnlyHolder(s); }
  }

  /** A worker closes what it is closing, and nothing else. */
  lemma WorkerOpens(s: State, l: Label, w: nat)
    requires w in s.workers && WorkerStep(s, l, w, s.workers[w]).Some?
    ensures forall c | c in s.open :: c in WorkerStep(s, l, w, s.workers[w]).value.open || s.workers[w] == Closing(c)
  {
  }

  lemma WorkerKeepsEvents(s: State, l: Label, w: nat)
    requires EventsOpen(s) && ClosersHold(s) && w in s.workers && WorkerStep(s, l, w, s.workers[w]).Some?
    ensures EventsOpen(WorkerStep(s, l, w, s.workers[w]).value)
  {
    var t, pc := WorkerStep(s, l, w, s.workers[w]).value, s.workers[w];
    assert t.batch == s.batch && t.main == s.main by {
      if pc.Waiting? || pc.Picked? {
        PickShape(s, l, w);
      } else if pc.Writing? || pc.Resetting? || pc.WriteDone? {
        WriteShape(s, l, w);
      } else if pc.Reading? || pc.ReadDone? || pc.Failing? || pc.FlagPending? {
        ReadShape(s, l, w);
      } else {
        ProcessShape(s, l, w);
      }
    }
    WorkerOpens(s, l, w);
  }

  lemma LoopKeepsEvents(s: State, l: Label)
    requires EventsOpen(s) && s.armed.Keys <= s.open && s.main == Polling && LoopStep(s, l).Some?
    ensures EventsOpen(LoopStep(s, l).value)
  {
  }

  lemma MainKeepsEvents(s: State, l: Label)
    requires EventsOpen(s) && ClosersHold(s) && s.armed.Keys <= s.open && MainStep(s, l).Some?
    ensures EventsOpen(MainStep(s, l).value)
  {
    if s.main == Polling { LoopKeepsEvents(s, l); }
  }

  lemma {:induction false} RunKeepsEvents(s: State, ls: seq<Label>)
    requires Inv(s) && EventsOpen(s) && Run(s, ls).Some? && CalmRun(s, ls)
    ensures EventsOpen(Run(s, ls).value)
    decreases |ls|
  {
    if ls != [] {
      StepKeepsExactlyWhenCalm(s, ls[0]);
      HoldersApart(s);
      if IsWorkerLabel(ls[0]) { WorkerKeepsEvents(s, ls[0], ls[0].w); } else { MainKeepsEvents(s, ls[0]); }
      RunKeepsEvents(Step(s, ls[0]).value, ls[1..]);
    }
  }

  /** Main result: in a calm run main never has an event of a descriptor that is closed. */
  lemma NoEventOfClosed(s0: State, ls: seq<Label>, c: Conn)
    requires Initial(s0) && Run(s0, ls).Some? && CalmRun(s0, ls)
    requires c in Run(s0, ls).value.batch || (Run(s0, ls).value.main.Handling? && Run(s0, ls).value.main.c == c)
    ensures c in Run(s0, ls).value.open
  {
    InitialInv(s0);
    RunKeepsEvents(s0, ls);
  }
}
