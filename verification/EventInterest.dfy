/**
 What epoll is asked for: EPOLLOUT for a connection to which a response is owed, EPOLLIN for
 any other, in every calm run and wherever the connection has been meanwhile.
 */
module EventInterest {
  import opened ThreadCounts
  import opened ConnectionOwnership
  import opened Wrappers

  predicate Complete(outcome: WriteOutcome) { outcome.CompleteKeep? || outcome.CompleteClose? }

  /**
   The responses owed after a step: process owes one when it has decided to respond, and a
   write that has sent all has paid it.
   */
  function OwedAfter(s: State, owed: set<Conn>, l: Label): set<Conn> {
    match l
    case Accept(c) => owed - {c}
    case Process(w, verdict) =>
      if verdict.Respond? && w in s.workers && s.workers[w].Processing? then owed + {s.workers[w].c} else owed
    case WriteReturns(w, outcome) =>
      if Complete(outcome) && w in s.workers && s.workers[w].Writing? then owed - {s.workers[w].c} else owed
    case MainWrite(outcome) => if Complete(outcome) && s.main.Handling? then owed - {s.main.c} else owed
    case _ => owed
  }

  function OwedIn(s: State, owed: set<Conn>, ls: seq<Label>): set<Conn>
    decreases |ls|
  {
    if ls == [] || Step(s, ls[0]).None? then owed
    else OwedIn(Step(s, ls[0]).value, OwedAfter(s, owed, ls[0]), ls[1..])
  }

  function Wanted(owed: set<Conn>, c: Conn): Interest { if c in owed then Writable else Readable }

  /** A task is for write if and only if a response is owed; in proactor mode it is never. */
  predicate TaskFits(s: State, owed: set<Conn>, c: Conn) {
    if s.mode.Reactor? then c in s.writeTask <==> c in owed else c !in owed
  }

  predicate WorkerFits(s: State, owed: set<Conn>, pc: WorkerPc) {
    match pc
    case Picked(c) => TaskFits(s, owed, c)
    case Reading(c) => c !in owed
    case ReadDone(c) => c !in owed
    case Processing(c) => c !in owed
    case Writing(c) => c in owed
    case Forgetting(c) => c !in s.open
    case Rearming(c) => c in s.sock && c in s.open ==> c in owed
    case _ => true
  }

  /** Main is about to read or to write `c`, as what is owed wants it. */
  predicate MainFits(owed: set<Conn>, pc: MainPc, c: Conn) {
    && (pc.Handling? && pc.c == c ==> pc.interest == Wanted(owed, c))
    && (pc.Appending? && pc.c == c ==> c !in owed)
  }

  predicate EventFits(s: State, owed: set<Conn>, c: Conn) {
    && (c in s.armed ==> s.armed[c] == Wanted(owed, c))
    && (c in s.batch && s.batch[c].Ready? ==> s.batch[c].interest == Wanted(owed, c))
  }

  /** Wherever `c` is, what happens to it next is what it needs. */
  predicate FitsAt(s: State, owed: set<Conn>, c: Conn) {
    && EventFits(s, owed, c) && MainFits(owed, s.main, c) && (c in s.queue ==> TaskFits(s, owed, c))
    && forall w | w in s.workers && At(s.workers[w], c) :: WorkerFits(s, owed, s.workers[w])
  }

  ghost predicate Fits(s: State, owed: set<Conn>) { forall c :: FitsAt(s, owed, c) }

  // ---------- a step leaves other connections alone ----------

  /** Nothing of `d` is different but that it may have been taken up or given away. */
  predicate SameSlot(s: State, t: State, d: Conn) {
    && t.mode == s.mode && (d in t.writeTask <==> d in s.writeTask)
    && (d in t.sock <==> d in s.sock) && (d in t.open <==> d in s.open)
    && (d in t.armed ==> d in s.armed && t.armed[d] == s.armed[d])
    && (d in t.batch ==> d in s.batch && t.batch[d] == s.batch[d])
    && (d in t.queue ==> d in s.queue)
  }

  lemma OthersFit(s: State, t: State, owed: set<Conn>, owed': set<Conn>, d: Conn)
    requires FitsAt(s, owed, d) && SameSlot(s, t, d) && (d in owed' <==> d in owed)
    requires t.main == s.main || (t.main != Polling ==> t.main.c != d)
    requires forall w | w in t.workers && At(t.workers[w], d) :: w in s.workers && s.workers[w] == t.workers[w]
    ensures FitsAt(t, owed', d)
  {
  }

  /** Only worker `w` has its connection in hand, but for flags still to be stored. */
  predicate HoldsAlone(s: State, w: nat)
    requires w in s.workers && !s.workers[w].Waiting?
  {
    var c := s.workers[w].c;
    && c !in s.queue && c !in s.batch && !MainHolds(s.main, c) && (IsEarly(s.workers[w], c) ==> c !in s.armed)
    && forall v | v in s.workers && v != w && At(s.workers[v], c) :: s.workers[v].FlagPending?
  }

  lemma OnlyHolder(s: State, w: nat)
    requires Inv(s) && w in s.workers && !s.workers[w].Waiting? && !s.workers[w].FlagPending?
    ensures HoldsAlone(s, w)
  {
    var c := s.workers[w].c;
    assert Held(s, c) <= 1 && Owners(s, c) <= 1;
    CountPositive(s.workers, w, Busy(c));
    if IsEarly(s.workers[w], c) { CountPositive(s.workers, w, Early(c)); }
    forall v | v in s.workers && v != w && At(s.workers[v], c) ensures s.workers[v].FlagPending? {
      if !s.workers[v].FlagPending? { CountPair(s.workers, v, w, Busy(c)); }
    }
  }

  /** The task in front of the queue is held by nobody else. */
  lemma OnlyQueued(s: State)
    requires Inv(s) && s.queue != []
    ensures var c := s.queue[0];
            && c !in s.queue[1..] && c !in s.batch && c !in s.armed && !MainHolds(s.main, c)
            && forall v | v in s.workers && At(s.workers[v], c) :: s.workers[v].FlagPending?
  {
    var c := s.queue[0];
    assert s.queue == [c] + s.queue[1..];
    assert Held(s, c) <= 1 && Owners(s, c) <= 1;
    forall v | v in s.workers && At(s.workers[v], c) ensures s.workers[v].FlagPending? {
      if !s.workers[v].FlagPending? { CountPositive(s.workers, v, Busy(c)); }
    }
  }

  /** So is what main holds. */
  predicate MainAlone(s: State)
    requires s.main != Polling
  {
    var c := s.main.c;
    && c !in s.queue && c !in s.batch && c !in s.armed
    && forall v | v in s.workers && At(s.workers[v], c) :: s.workers[v].FlagPending?
  }

  lemma MainOnlyHolder(s: State)
    requires Inv(s) && (s.main.Handling? || s.main.Appending?)
    ensures MainAlone(s)
  {
    var c := s.main.c;
    assert Held(s, c) <= 1 && Owners(s, c) <= 1;
    forall v | v in s.workers && At(s.workers[v], c) ensures s.workers[v].FlagPending? {
      if !s.workers[v].FlagPending? { CountPositive(s.workers, v, Busy(c)); }
    }
  }

  // ---------- the steps ----------

  lemma TakeFits(s: State, owed: set<Conn>, l: Label, w: nat, d: Conn)
    requires Inv(s) && Fits(s, owed) && w in s.workers && s.workers[w].Waiting? && PickStep(s, l, w, s.workers[w]).Some?
    ensures FitsAt(PickStep(s, l, w, s.workers[w]).value, owed, d)
  {
    var t := PickStep(s, l, w, s.workers[w]).value;
    assert FitsAt(s, owed, d) && FitsAt(s, owed, s.queue[0]);
    OnlyQueued(s);
    assert d != s.queue[0] ==> (d in t.queue ==> d in s.queue);
    if d != s.queue[0] { OthersFit(s, t, owed, owed, d); }
  }

  lemma BeginFits(s: State, owed: set<Conn>, l: Label, w: nat, d: Conn)
    requires FitsAt(s, owed, d) && w in s.workers && s.workers[w].Picked? && PickStep(s, l, w, s.workers[w]).Some?
    requires !s.workers[w].Waiting? && HoldsAlone(s, w)
    ensures FitsAt(PickStep(s, l, w, s.workers[w]).value, owed, d)
  {
    var t := PickStep(s, l, w, s.workers[w]).value;
    if d != s.workers[w].c { OthersFit(s, t, owed, owed, d); }
  }

  lemma ReadFits(s: State, owed: set<Conn>, l: Label, w: nat, d: Conn)
    requires FitsAt(s, owed, d) && w in s.workers && ReadStep(s, l, w, s.workers[w]).Some?
    requires !s.workers[w].Waiting? && (s.workers[w].FlagPending? || HoldsAlone(s, w))
    ensures FitsAt(ReadStep(s, l, w, s.workers[w]).value, owed, d)
  {
    var t := ReadStep(s, l, w, s.workers[w]).value;
    if d != s.workers[w].c { OthersFit(s, t, owed, owed, d); }
  }

  /** What a step is to the connections that it is not about. */
  predicate Elsewhere(s: State, t: State, owed: set<Conn>, owed': set<Conn>, d: Conn) {
    && SameSlot(s, t, d) && (d in owed' <==> d in owed) && t.main == s.main
    && forall v | v in t.workers && At(t.workers[v], d) :: v in s.workers && s.workers[v] == t.workers[v]
  }

  lemma WriteReturnElsewhere(s: State, owed: set<Conn>, l: Label, w: nat, d: Conn)
    requires w in s.workers && s.workers[w].Writing? && l.WriteReturns? && l.w == w && d != s.workers[w].c
    ensures Elsewhere(s, WriteReturn(s, s.workers[w].c, w, l.outcome), owed, OwedAfter(s, owed, l), d)
  {
  }

  lemma WriteElsewhere(s: State, owed: set<Conn>, l: Label, w: nat, d: Conn)
    requires w in s.workers && WriteStep(s, l, w, s.workers[w]).Some? && d != s.workers[w].c
    requires l.WriteReturns? ==> l.w == w
    ensures Elsewhere(s, WriteStep(s, l, w, s.workers[w]).value, owed,
                      if l.WriteReturns? then OwedAfter(s, owed, l) else owed, d)
  {
    if s.workers[w].Writing? { WriteReturnElsewhere(s, owed, l, w, d); }
  }

  /** write has returned. */
  lemma WriteReturnFits(s: State, owed: set<Conn>, l: Label, w: nat)
    requires w in s.workers && s.workers[w].Writing? && l.WriteReturns? && l.w == w && HoldsAlone(s, w)
    requires FitsAt(s, owed, s.workers[w].c)
    ensures FitsAt(WriteReturn(s, s.workers[w].c, w, l.outcome), OwedAfter(s, owed, l), s.workers[w].c)
  {
  }

  lemma WriteFits(s: State, owed: set<Conn>, l: Label, w: nat, d: Conn)
    requires FitsAt(s, owed, d) && w in s.workers && WriteStep(s, l, w, s.workers[w]).Some?
    requires l.WriteReturns? ==> l.w == w
    requires !s.workers[w].Waiting? && HoldsAlone(s, w)
    ensures FitsAt(WriteStep(s, l, w, s.workers[w]).value, if l.WriteReturns? then OwedAfter(s, owed, l) else owed, d)
  {
    if d != s.workers[w].c {
      WriteElsewhere(s, owed, l, w, d);
      OthersFit(s, WriteStep(s, l, w, s.workers[w]).value, owed, if l.WriteReturns? then OwedAfter(s, owed, l) else owed, d);
    } else if s.workers[w].Writing? {
      WriteReturnFits(s, owed, l, w);
    }
  }

  lemma ProcessElsewhere(s: State, owed: set<Conn>, l: Label, w: nat, d: Conn)
    requires w in s.workers && ProcessStep(s, l, w, s.workers[w]).Some? && d != s.workers[w].c
    requires l.Process? ==> l.w == w
    ensures Elsewhere(s, ProcessStep(s, l, w, s.workers[w]).value, owed,
                      if l.Process? then OwedAfter(s, owed, l) else owed, d)
  {
  }

  lemma ProcessFits(s: State, owed: set<Conn>, l: Label, w: nat, d: Conn)
    requires FitsAt(s, owed, d) && w in s.workers && ProcessStep(s, l, w, s.workers[w]).Some?
    requires l.Process? ==> l.w == w
    requires !s.workers[w].Waiting? && HoldsAlone(s, w)
    ensures FitsAt(ProcessStep(s, l, w, s.workers[w]).value, if l.Process? then OwedAfter(s, owed, l) else owed, d)
  {
    if d != s.workers[w].c {
      ProcessElsewhere(s, owed, l, w, d);
      OthersFit(s, ProcessStep(s, l, w, s.workers[w]).value, owed, if l.Process? then OwedAfter(s, owed, l) else owed, d);
    }
  }

  lemma WorkerFitsAfter(s: State, owed: set<Conn>, l: Label, d: Conn)
    requires Inv(s) && Fits(s, owed) && Step(s, l).Some? && IsWorkerLabel(l)
    ensures FitsAt(Step(s, l).value, OwedAfter(s, owed, l), d)
  {
    var pc := s.workers[l.w];
    assert FitsAt(s, owed, d);
    if !pc.Waiting? && !pc.FlagPending? { OnlyHolder(s, l.w); }
    if pc.Waiting? {
      TakeFits(s, owed, l, l.w, d);
    } else if pc.Picked? {
      BeginFits(s, owed, l, l.w, d);
    } else if pc.Writing? || pc.Resetting? || pc.WriteDone? {
      WriteFits(s, owed, l, l.w, d);
    } else if pc.Reading? || pc.ReadDone? || pc.Failing? || pc.FlagPending? {
      ReadFits(s, owed, l, l.w, d);
    } else {
      ProcessFits(s, owed, l, l.w, d);
    }
  }

  lemma AcceptFits(s: State, owed: set<Conn>, c: Conn, d: Conn)
    requires Inv(s) && Fits(s, owed) && s.main == Polling && c !in s.open && Calm(s, Accept(c))
    ensures FitsAt(LoopStep(s, Accept(c)).value, owed - {c}, d)
  {
    var t := LoopStep(s, Accept(c)).value;
    assert FitsAt(s, owed, d);
    if d != c {
      OthersFit(s, t, owed, owed - {c}, d);
    } else {
      assert c !in s.queue && c !in s.batch;
      forall w | w in s.workers && At(s.workers[w], c) ensures s.workers[w].FlagPending? {
        if !s.workers[w].FlagPending? { CountPositive(s.workers, w, Busy(c)); }
      }
    }
  }

  lemma LoopFits(s: State, owed: set<Conn>, l: Label, d: Conn)
    requires Inv(s) && Fits(s, owed) && s.main == Polling && !l.Accept? && LoopStep(s, l).Some?
    ensures FitsAt(LoopStep(s, l).value, owed, d)
  {
    assert FitsAt(s, owed, d);
  }

  lemma ProactorElsewhere(s: State, owed: set<Conn>, l: Label, d: Conn)
    requires s.main.Handling? && ProactorStep(s, l, s.main.c, s.main.interest).Some? && d != s.main.c
    ensures var t := ProactorStep(s, l, s.main.c, s.main.interest).value;
            && SameSlot(s, t, d) && (d in OwedAfter(s, owed, l) <==> d in owed) && t.workers == s.workers
            && (t.main != Polling ==> t.main.c != d)
  {
  }

  lemma ProactorFits(s: State, owed: set<Conn>, l: Label, d: Conn)
    requires FitsAt(s, owed, d) && s.main.Handling? && ProactorStep(s, l, s.main.c, s.main.interest).Some?
    requires MainAlone(s)
    ensures FitsAt(ProactorStep(s, l, s.main.c, s.main.interest).value, OwedAfter(s, owed, l), d)
  {
    if d != s.main.c {
      ProactorElsewhere(s, owed, l, d);
      OthersFit(s, ProactorStep(s, l, s.main.c, s.main.interest).value, owed, OwedAfter(s, owed, l), d);
    }
  }

  lemma AppendFits(s: State, owed: set<Conn>, d: Conn)
    requires FitsAt(s, owed, d) && s.mode.Reactor? && s.main.Handling?
    requires MainAlone(s)
    ensures FitsAt(AppendStep(s, s.main.c, s.main.interest), owed, d)
  {
    if d != s.main.c { OthersFit(s, AppendStep(s, s.main.c, s.main.interest), owed, owed, d); }
  }

  /** The handshake, and what follows read_once and write in proactor mode. */
  lemma TailFits(s: State, owed: set<Conn>, l: Label, d: Conn)
    requires FitsAt(s, owed, d) && !s.main.Polling? && !s.main.Handling? && MainStep(s, l).Some?
    requires s.main.Appending? ==> s.mode.Proactor? && MainAlone(s)
    requires s.main.MainResetting? ==> s.mode.Proactor?
    ensures FitsAt(MainStep(s, l).value, owed, d)
  {
    var t := MainStep(s, l).value;
    if d != s.main.c { OthersFit(s, t, owed, owed, d); }
  }

  lemma StepFits(s: State, owed: set<Conn>, l: Label)
    requires Inv(s) && Fits(s, owed) && Step(s, l).Some? && Calm(s, l)
    ensures Fits(Step(s, l).value, OwedAfter(s, owed, l))
  {
    forall d ensures FitsAt(Step(s, l).value, OwedAfter(s, owed, l), d) {
      assert FitsAt(s, owed, d);
      if s.main.Handling? || s.main.Appending? { MainOnlyHolder(s); }
      if IsWorkerLabel(l) {
        WorkerFitsAfter(s, owed, l, d);
      } else {
        match s.main
        case Polling => if l.Accept? { AcceptFits(s, owed, l.c, d); } else { LoopFits(s, owed, l, d); }
        case Handling(_, _) => if s.mode.Proactor? { ProactorFits(s, owed, l, d); } else { AppendFits(s, owed, d); }
        case _ => TailFits(s, owed, l, d);
      }
    }
  }

  lemma {:induction false} RunFits(s: State, owed: set<Conn>, ls: seq<Label>)
    requires Inv(s) && Fits(s, owed) && Run(s, ls).Some? && CalmRun(s, ls)
    ensures Inv(Run(s, ls).value) && Fits(Run(s, ls).value, OwedIn(s, owed, ls))
    decreases |ls|
  {
    if ls != [] {
      StepKeepsExactlyWhenCalm(s, ls[0]);
      StepFits(s, owed, ls[0]);
      RunFits(Step(s, ls[0]).value, OwedAfter(s, owed, ls[0]), ls[1..]);
    }
  }

  /**
   Main result: after any calm run from the start, epoll is asked for EPOLLOUT for exactly those
   armed connections to which a response is owed, and for EPOLLIN for the others; write is
   entered for those only, read_once and process for the others only.
   */
  lemma ArmedForWhatIsOwed(s0: State, ls: seq<Label>, c: Conn)
    requires Initial(s0) && Run(s0, ls).Some? && CalmRun(s0, ls)
    ensures var (s, owed) := (Run(s0, ls).value, OwedIn(s0, {}, ls));
            && (c in s.armed ==> s.armed[c] == if c in owed then Writable else Readable)
            && (c in s.batch && s.batch[c] == Ready(Writable) ==> c in owed)
            && (c in s.batch && s.batch[c] == Ready(Readable) ==> c !in owed)
            && (s.main == Handling(c, Writable) ==> c in owed) && (s.main == Handling(c, Readable) ==> c !in owed)
            && forall w | w in s.workers ::
                 && (s.workers[w] == Writing(c) ==> c in owed)
                 && (s.workers[w] == Reading(c) || s.workers[w] == Processing(c) ==> c !in owed)
  {
    InitialInv(s0);
    forall d ensures FitsAt(s0, {}, d) {
    }
    RunFits(s0, {}, ls);
    assert FitsAt(Run(s0, ls).value, OwedIn(s0, {}, ls), c);
  }
}
