/**
 The other half of ownership: an open connection is not forgotten. Until a failure is
 reported for it, some thread, the queue or epoll holds it, unless the proactor's main
 thread drops a task because the queue is full.
 */
module NoConnectionLost {
  import opened ThreadCounts
  import opened ConnectionOwnership

  ghost predicate Kept(s: State) {
    && (forall c | c in s.open :: c in s.sock && (c in s.armed || Held(s, c) >= 1 || c in s.failed))
    && (forall w | w in s.workers :: var pc := s.workers[w];
          && (pc.Forgetting? ==> pc.c !in s.open)
          && ((pc.Resetting? || pc.WriteDone?) && pc.c in s.open ==> pc.c in s.armed))
    && (forall c | c in s.open && MainLate(s.main, c) :: c in s.armed)
  }

  /** The one step that loses a connection: append's refusal is not looked at. */
  predicate DropsTask(s: State, l: Label) {
    l.MainAppend? && s.main.Appending? && s.main.c in s.open && |s.queue| >= s.capacity
  }

  /** What a worker's step does with the descriptors and the interest. */
  ghost predicate HandsBack(s: State, t: State, w: nat) {
    && w in s.workers && w in t.workers && t.open <= s.open
    && var pc, pc' := s.workers[w], t.workers[w];
    && (forall c | c in t.open && c in s.sock :: c in t.sock || pc == Forgetting(c))
    && (forall c | c in t.open && c in s.armed :: c in t.armed)
    && (forall c | c in s.failed :: c in t.failed || IsBusy(pc', c))
    && (forall c | IsBusy(pc, c) && !IsBusy(pc', c) && c in t.open && c in s.sock ::
          c in t.armed || c in t.failed || pc == WriteDone(c))
    && ((pc'.Resetting? || pc'.WriteDone?) && pc'.c in t.open && pc'.c in s.sock ==>
          pc'.c in t.armed || pc.Resetting?)
    && (pc'.Forgetting? ==> pc'.c !in t.open)
  }

  lemma PickHandsBack(s: State, l: Label, w: nat)
    requires w in s.workers && PickStep(s, l, w, s.workers[w]).Some?
    ensures HandsBack(s, PickStep(s, l, w, s.workers[w]).value, w)
  {
  }

  lemma ReadHandsBack(s: State, l: Label, w: nat)
    requires w in s.workers && ReadStep(s, l, w, s.workers[w]).Some?
    requires s.workers[w].Failing? || s.workers[w].FlagPending? ==> s.workers[w].c in s.failed
    ensures HandsBack(s, ReadStep(s, l, w, s.workers[w]).value, w)
  {
  }

  lemma WriteHandsBack(s: State, l: Label, w: nat)
    requires w in s.workers && WriteStep(s, l, w, s.workers[w]).Some?
    ensures HandsBack(s, WriteStep(s, l, w, s.workers[w]).value, w)
  {
  }

  lemma ProcessHandsBack(s: State, l: Label, w: nat)
    requires w in s.workers && ProcessStep(s, l, w, s.workers[w]).Some?
    ensures HandsBack(s, ProcessStep(s, l, w, s.workers[w]).value, w)
  {
  }

  lemma HandsBackKeeps(s: State, t: State, w: nat)
    requires Kept(s) && WorkerShape(s, t, w) && HandsBack(s, t, w)
    ensures Kept(t)
  {
    forall c | c in t.open ensures c in t.sock && (c in t.armed || Held(t, c) >= 1 || c in t.failed) {
      CountAfterMove(s.workers, w, t.workers[w], Busy(c));
      if IsBusy(t.workers[w], c) { CountPositive(t.workers, w, Busy(c)); }
      assert s.queue != [] ==> s.queue == [s.queue[0]] + s.queue[1..];
    }
  }

  lemma WorkerKeeps(s: State, l: Label, w: nat)
    requires Kept(s) && Inv(s) && w in s.workers && WorkerStep(s, l, w, s.workers[w]).Some?
    ensures Kept(WorkerStep(s, l, w, s.workers[w]).value)
  {
    var pc := s.workers[w];
    if pc.Waiting? || pc.Picked? {
      PickShape(s, l, w); PickHandsBack(s, l, w);
      HandsBackKeeps(s, PickStep(s, l, w, pc).value, w);
    } else if pc.Writing? || pc.Resetting? || pc.WriteDone? {
      WriteShape(s, l, w); WriteHandsBack(s, l, w);
      HandsBackKeeps(s, WriteStep(s, l, w, pc).value, w);
    } else if pc.Reading? || pc.ReadDone? || pc.Failing? || pc.FlagPending? {
      ReadShape(s, l, w); ReadHandsBack(s, l, w);
      HandsBackKeeps(s, ReadStep(s, l, w, pc).value, w);
    } else {
      ProcessShape(s, l, w); ProcessHandsBack(s, l, w);
      HandsBackKeeps(s, ProcessStep(s, l, w, pc).value, w);
    }
  }

  lemma AcceptKeepsAll(s: State, c: Conn)
    requires Kept(s) && Inv(s) && s.main == Polling && c !in s.open && Held(s, c) == 0
    ensures Kept(LoopStep(s, Accept(c)).value)
  {
    forall w | w in s.workers && At(s.workers[w], c) ensures s.workers[w] == FlagPending(c) {
      if s.workers[w] != FlagPending(c) { CountPositive(s.workers, w, Busy(c)); }
    }
  }

  lemma PollKeepsAll(s: State, events: map<Conn, Event>)
    requires Kept(s) && Inv(s) && s.main == Polling && LoopStep(s, Poll(events)).Some?
    ensures Kept(LoopStep(s, Poll(events)).value)
  {
    forall w | w in s.workers && (s.workers[w].Resetting? || s.workers[w].WriteDone?) ensures false {
      if s.mode.Reactor? { OnlyUnpublished(s, w); }
    }
  }

  /** Main's other steps close connections, hand them to epoll or go on holding them. */
  ghost predicate MainHandsBack(s: State, t: State) {
    && t.workers == s.workers && t.queue == s.queue && t.open <= s.open && t.sock == s.sock
    && (forall c | c in t.open && c in s.armed :: c in t.armed)
    && (forall c | c in t.open && c in s.sock && !MainHolds(t.main, c) ::
          && (c in s.batch ==> c in t.batch)
          && (MainHolds(s.main, c) ==> c in t.armed)
          && (MainLate(t.main, c) ==> c in t.armed)
          && (c in s.failed ==> c in t.failed || MainLate(s.main, c)))
  }

  lemma MainHandsBackKeeps(s: State, t: State)
    requires Kept(s) && MainHandsBack(s, t)
    ensures Kept(t)
  {
  }

  lemma ExpireOrDispatchHandsBack(s: State, l: Label)
    requires s.main == Polling && (l.Expire? || l.Dispatch?) && LoopStep(s, l).Some?
    ensures MainHandsBack(s, LoopStep(s, l).value)
  {
  }

  lemma HandshakeHandsBack(s: State, l: Label)
    requires InHandshake(s.main) && MainStep(s, l).Some?
    ensures MainHandsBack(s, MainStep(s, l).value)
  {
  }

  lemma ProactorHandsBack(s: State, l: Label)
    requires s.main.Handling? && ProactorStep(s, l, s.main.c, s.main.interest).Some?
    ensures MainHandsBack(s, ProactorStep(s, l, s.main.c, s.main.interest).value)
  {
  }

  lemma ProactorTailHandsBack(s: State, l: Label)
    requires (s.main.MainResetting? || s.main.MainClosing?) && MainStep(s, l).Some?
    ensures MainHandsBack(s, MainStep(s, l).value)
  {
  }

  /** In reactor mode main never meets a full queue. */
  lemma AppendStepKeeps(s: State)
    requires Kept(s) && Inv(s) && s.mode.Reactor? && s.main.Handling?
    ensures Kept(AppendStep(s, s.main.c, s.main.interest))
  {
    assert s.queue == [] && multiset([s.main.c])[s.main.c] == 1;
  }

  lemma MainAppendKeeps(s: State)
    requires Kept(s) && Inv(s) && s.mode.Proactor? && s.main.Appending?
    ensures Kept(MainStep(s, MainAppend).value) <==> !DropsTask(s, MainAppend)
  {
    assert Held(s, s.main.c) <= 1 && Owners(s, s.main.c) <= 1;
  }

  lemma MainKeepsUnlessDropped(s: State, l: Label)
    requires Inv(s) && Kept(s) && MainStep(s, l).Some? && Calm(s, l) && !l.WorkerReset?
    ensures Kept(MainStep(s, l).value) <==> !DropsTask(s, l)
  {
    match s.main
    case Polling =>
      if l.Accept? { AcceptKeepsAll(s, l.c); }
      else if l.Poll? { PollKeepsAll(s, l.events); }
      else { ExpireOrDispatchHandsBack(s, l); MainHandsBackKeeps(s, LoopStep(s, l).value); }
    case Handling(c, interest) =>
      if s.mode.Reactor? { AppendStepKeeps(s); }
      else {
        ProactorHandsBack(s, l);
        MainHandsBackKeeps(s, ProactorStep(s, l, c, interest).value);
      }
    case Appending(_) => MainAppendKeeps(s);
    case MainResetting(_) => ProactorTailHandsBack(s, l); MainHandsBackKeeps(s, MainStep(s, l).value);
    case MainClosing(_) => ProactorTailHandsBack(s, l); MainHandsBackKeeps(s, MainStep(s, l).value);
    case _ => HandshakeHandsBack(s, l); MainHandsBackKeeps(s, MainStep(s, l).value);
  }

  /** Main result, one step: a calm step loses a connection exactly when it drops a task. */
  lemma StepKeepsUnlessDropped(s: State, l: Label)
    requires Inv(s) && Kept(s) && Step(s, l).Some? && Calm(s, l)
    ensures Kept(Step(s, l).value) <==> !DropsTask(s, l)
  {
    if IsWorkerLabel(l) {
      WorkerKeeps(s, l, l.w);
    } else {
      MainKeepsUnlessDropped(s, l);
    }
  }

  /** No step of the run drops a task. */
  predicate NothingDropped(s: State, ls: seq<Label>)
    decreases |ls|
  {
    ls != [] ==> !DropsTask(s, ls[0]) && (Step(s, ls[0]).Some? ==> NothingDropped(Step(s, ls[0]).value, ls[1..]))
  }

  /**
   Main result: in a calm run in which no task is dropped, every open connection without a
   reported failure has exactly one holder or is armed.
   */
  lemma {:induction false} NothingLost(s: State, ls: seq<Label>)
    requires Inv(s) && Kept(s) && Run(s, ls).Some? && CalmRun(s, ls) && NothingDropped(s, ls)
    ensures Inv(Run(s, ls).value) && Kept(Run(s, ls).value)
    decreases |ls|
  {
    if ls != [] {
      StepKeepsExactlyWhenCalm(s, ls[0]);
      StepKeepsUnlessDropped(s, ls[0]);
      NothingLost(Step(s, ls[0]).value, ls[1..]);
    }
  }

  lemma NothingLostFromStart(s0: State, ls: seq<Label>, c: Conn)
    requires Initial(s0) && Run(s0, ls).Some? && CalmRun(s0, ls) && NothingDropped(s0, ls)
    ensures var s := Run(s0, ls).value;
            c in s.open && c !in s.failed ==> c in s.armed || Held(s, c) == 1
  {
    InitialInv(s0);
    NothingLost(s0, ls);
    assert Held(Run(s0, ls).value, c) <= 1;
  }
}
