/**
 The protocol by which the event loop and the worker threads hand connections to
 each other: one-shot epoll interest, the task queue, and in reactor mode the
 `improv`/`timer_flag` handshake on which the main thread spins.

 A state is a value and a step is one access to shared data, so that every
 interleaving of the main thread with any number of workers is a sequence of steps.
 The queue operations are atomic here: ThreadPool.RunRefines shows that the list is such a queue.
 */
module ConnectionOwnership {
  import opened ThreadCounts
  import opened Runs
  import opened Wrappers

  /** A file descriptor, which is also the index of its `http_conn` slot. */
  type Conn = nat

  datatype Mode = Reactor | Proactor
  datatype Interest = Readable | Writable
  datatype Event = Ready(interest: Interest) | HungUp
  /** How `http_conn::write` can end. */
  datatype WriteOutcome = Again | Error | CompleteKeep | CompleteClose

  /** What `http_conn::process` decides. */
  datatype Verdict = NeedMore | Respond | Refuse

  datatype MainPc =
    | Polling                                // between events
    | Handling(c: Conn, interest: Interest)  // deal_with_read or deal_with_write entered
    | Appending(c: Conn)                     // proactor: read_once succeeded
    | Spinning(c: Conn, interest: Interest)  // reactor: appended, waiting for improv
    | Checking(c: Conn)                      // improv seen, about to test timer_flag
    | Removing(c: Conn)                      // timer_flag seen, about to remove the timer
    | ClearingFlag(c: Conn)
    | ClearingImprov(c: Conn)
    | MainResetting(c: Conn)                 // proactor: write re-armed, about to init
    | MainClosing(c: Conn)                   // proactor: write re-armed, then returned false

  datatype WorkerPc =
    | Waiting
    | Picked(c: Conn)        // task popped, scheduler called
    | Reading(c: Conn)       // in read_once
    | ReadDone(c: Conn)      // read_once true, about to store improv
    | Writing(c: Conn)       // in write
    | Resetting(c: Conn)     // write has re-armed, about to init
    | WriteDone(c: Conn)     // write true, about to store improv
    | Failing(c: Conn)       // read_once or write false, about to store improv
    | FlagPending(c: Conn)   // improv stored, about to store timer_flag
    | Processing(c: Conn)    // in process
    | Closing(c: Conn)       // process_write false, about to remove and close the fd
    | Forgetting(c: Conn)    // about to store -1 in m_sockfd
    | Rearming(c: Conn)      // about to run the last modfd of process

  /** `appends`, `finished` and `failed` are history, everything else is in the program. */
  datatype State = State(
    mode: Mode,
    capacity: nat,
    open: set<Conn>,
    armed: map<Conn, Interest>,
    sock: set<Conn>,              // slots whose m_sockfd is not -1
    batch: map<Conn, Event>,      // events returned by epoll_wait and not yet handled
    main: MainPc,
    queue: seq<Conn>,
    workers: map<nat, WorkerPc>,
    writeTask: set<Conn>,         // slots whose m_state is 1
    improv: set<Conn>,
    timerFlag: set<Conn>,
    appends: nat,                 // tasks appended so far
    finished: nat,                // of these, read_once or write has returned
    failed: set<Conn>)            // a task reported failure since the slot's last init

  datatype Label =
    | Accept(c: Conn) | Expire(c: Conn) | Poll(events: map<Conn, Event>) | Dispatch(c: Conn)
    | AppendAndSpin | SeeImprov | CheckFlag | RemoveTimer | ClearFlag | ClearImprov
    | MainRead(ok: bool) | MainAppend | MainWrite(outcome: WriteOutcome) | MainReset | MainClose
    | Take(w: nat) | Begin(w: nat) | ReadReturns(w: nat, ok: bool)
    | WriteReturns(w: nat, outcome: WriteOutcome) | WorkerReset(w: nat) | Publish(w: nat)
    | RaiseFlag(w: nat) | Process(w: nat, verdict: Verdict) | CloseFd(w: nat) | ForgetFd(w: nat)
    | Rearm(w: nat)

  // ---------- the steps ----------

  /** `modfd` on the slot's own descriptor: without effect once that is -1 or closed. */
  function Modfd(s: State, c: Conn, interest: Interest): State {
    if c in s.sock && c in s.open then s.(armed := s.armed[c := interest]) else s
  }

  /** Closing a descriptor also takes it out of the epoll set. */
  function Close(s: State, c: Conn): State {
    s.(open := s.open - {c}, armed := s.armed - {c})
  }

  /** `http_conn::init()`. */
  function Reset(s: State, c: Conn): State {
    s.(improv := s.improv - {c}, timerFlag := s.timerFlag - {c},
       writeTask := s.writeTask - {c}, failed := s.failed - {c})
  }

  function MainTo(s: State, pc: MainPc): State { s.(main := pc) }

  function WorkerTo(s: State, w: nat, pc: WorkerPc): State { s.(workers := s.workers[w := pc]) }

  /** A step of the main thread between two events. */
  function LoopStep(s: State, l: Label): Option<State> {
    match l
    case Accept(c) =>
      if c !in s.open then
        Some(Reset(s, c).(open := s.open + {c}, armed := s.armed[c := Readable], sock := s.sock + {c}))
      else None
    case Expire(c) => if s.batch == map[] && c in s.open then Some(Close(s, c)) else None
    case Poll(events) =>
      if s.batch == map[] && events.Keys <= s.armed.Keys &&
         (forall c | c in events :: events[c] == HungUp || events[c] == Ready(s.armed[c]))
      then Some(s.(batch := events, armed := s.armed - events.Keys)) else None
    case Dispatch(c) =>
      if c !in s.batch then None
      else
        var rest := s.(batch := s.batch - {c});
        Some(if s.batch[c].HungUp? then Close(rest, c) else MainTo(rest, Handling(c, s.batch[c].interest)))
    case _ => None
  }

  /** In reactor mode: append the task and spin; the result of append is not looked at. */
  function AppendStep(s: State, c: Conn, interest: Interest): State {
    if |s.queue| >= s.capacity then MainTo(s, Spinning(c, interest))
    else
      s.(main := Spinning(c, interest), queue := s.queue + [c], appends := s.appends + 1,
         writeTask := if interest.Writable? then s.writeTask + {c} else s.writeTask - {c})
  }

  /** In proactor mode the main thread runs read_once and write itself. */
  function ProactorStep(s: State, l: Label, c: Conn, interest: Interest): Option<State> {
    if l.MainRead? && interest.Readable? then
      Some(if l.ok then MainTo(s, Appending(c)) else MainTo(Close(s, c), Polling))
    else if l.MainWrite? && interest.Writable? then
      Some(match l.outcome
           case Again => MainTo(Modfd(s, c, Writable), Polling)
           case Error => MainTo(Close(s, c), Polling)
           case CompleteKeep => MainTo(Modfd(s, c, Readable), MainResetting(c))
           case CompleteClose => MainTo(Modfd(s, c, Readable), MainClosing(c)))
    else None
  }

  function MainStep(s: State, l: Label): Option<State> {
    match s.main
    case Polling => LoopStep(s, l)
    case Handling(c, interest) =>
      if s.mode.Proactor? then ProactorStep(s, l, c, interest)
      else if l.AppendAndSpin? then Some(AppendStep(s, c, interest)) else None
    case Appending(c) =>
      if l.MainAppend? then
        Some(s.(main := Polling, queue := if |s.queue| >= s.capacity then s.queue else s.queue + [c]))
      else None
    case Spinning(c, _) => if l.SeeImprov? && c in s.improv then Some(MainTo(s, Checking(c))) else None
    case Checking(c) =>
      if l.CheckFlag? then Some(MainTo(s, if c in s.timerFlag then Removing(c) else ClearingImprov(c)))
      else None
    case Removing(c) => if l.RemoveTimer? then Some(MainTo(Close(s, c), ClearingFlag(c))) else None
    case ClearingFlag(c) =>
      if l.ClearFlag? then Some(s.(timerFlag := s.timerFlag - {c}, main := ClearingImprov(c))) else None
    case ClearingImprov(c) =>
      if l.ClearImprov? then Some(s.(improv := s.improv - {c}, main := Polling)) else None
    case MainResetting(c) => if l.MainReset? then Some(MainTo(Reset(s, c), Polling)) else None
    case MainClosing(c) => if l.MainClose? then Some(MainTo(Close(s, c), Polling)) else None
  }

  /** write returns in a worker; the reset after a complete response is a step of its own. */
  function WriteReturn(s: State, c: Conn, w: nat, outcome: WriteOutcome): State {
    var t := s.(finished := s.finished + 1);
    match outcome
    case Again => WorkerTo(Modfd(t, c, Writable), w, WriteDone(c))
    case Error => WorkerTo(t.(failed := t.failed + {c}), w, Failing(c))
    case CompleteKeep => WorkerTo(Modfd(s, c, Readable), w, Resetting(c))
    case CompleteClose => WorkerTo(Modfd(t, c, Readable).(failed := t.failed + {c}), w, Failing(c))
  }

  /** Steps of the reactor scheduler around read_once. */
  function ReadStep(s: State, l: Label, w: nat, pc: WorkerPc): Option<State> {
    match pc
    case Reading(c) =>
      if l.ReadReturns? then
        var t := s.(finished := s.finished + 1);
        Some(if l.ok then WorkerTo(t, w, ReadDone(c))
             else WorkerTo(t.(failed := t.failed + {c}), w, Failing(c)))
      else None
    case ReadDone(c) =>
      if l.Publish? then Some(WorkerTo(s.(improv := s.improv + {c}), w, Processing(c))) else None
    case Failing(c) =>
      if l.Publish? then Some(WorkerTo(s.(improv := s.improv + {c}), w, FlagPending(c))) else None
    case FlagPending(c) =>
      if l.RaiseFlag? then Some(WorkerTo(s.(timerFlag := s.timerFlag + {c}), w, Waiting)) else None
    case _ => None
  }

  /** Steps of the reactor scheduler around write. */
  function WriteStep(s: State, l: Label, w: nat, pc: WorkerPc): Option<State> {
    match pc
    case Writing(c) => if l.WriteReturns? then Some(WriteReturn(s, c, w, l.outcome)) else None
    case Resetting(c) =>
      if l.WorkerReset? then Some(WorkerTo(Reset(s, c).(finished := s.finished + 1), w, WriteDone(c)))
      else None
    case WriteDone(c) =>
      if l.Publish? then Some(WorkerTo(s.(improv := s.improv + {c}), w, Waiting)) else None
    case _ => None
  }

  /** Steps of process, which always ends in a modfd. */
  function ProcessStep(s: State, l: Label, w: nat, pc: WorkerPc): Option<State> {
    match pc
    case Processing(c) =>
      if l.Process? then
        Some(match l.verdict
             case NeedMore => WorkerTo(Modfd(s, c, Readable), w, Waiting)
             case Respond => WorkerTo(s, w, Rearming(c))
             case Refuse => WorkerTo(s, w, Closing(c)))
      else None
    case Closing(c) => if l.CloseFd? then Some(WorkerTo(Close(s, c), w, Forgetting(c))) else None
    case Forgetting(c) =>
      if l.ForgetFd? then Some(WorkerTo(s.(sock := s.sock - {c}), w, Rearming(c))) else None
    case Rearming(c) =>
      if l.Rearm? then Some(WorkerTo(Modfd(s, c, Writable), w, Waiting)) else None
    case _ => None
  }

  /** A worker takes a task and enters the scheduler with it. */
  function PickStep(s: State, l: Label, w: nat, pc: WorkerPc): Option<State> {
    match pc
    case Waiting =>
      if l.Take? && s.queue != [] then Some(WorkerTo(s.(queue := s.queue[1..]), w, Picked(s.queue[0])))
      else None
    case Picked(c) =>
      if l.Begin? then
        Some(WorkerTo(s, w, if s.mode.Proactor? then Processing(c)
                            else if c in s.writeTask then Writing(c) else Reading(c)))
      else None
    case _ => None
  }

  /** A step of worker `w` standing at `pc`. */
  function WorkerStep(s: State, l: Label, w: nat, pc: WorkerPc): Option<State> {
    if pc.Waiting? || pc.Picked? then PickStep(s, l, w, pc)
    else if pc.Writing? || pc.Resetting? || pc.WriteDone? then WriteStep(s, l, w, pc)
    else if pc.Reading? || pc.ReadDone? || pc.Failing? || pc.FlagPending? then ReadStep(s, l, w, pc)
    else ProcessStep(s, l, w, pc)
  }

  predicate IsWorkerLabel(l: Label) {
    l.Take? || l.Begin? || l.ReadReturns? || l.WriteReturns? || l.WorkerReset? || l.Publish? ||
    l.RaiseFlag? || l.Process? || l.CloseFd? || l.ForgetFd? || l.Rearm?
  }

  /** The state after step `l`, or None where the step cannot happen. */
  function Step(s: State, l: Label): Option<State> {
    if IsWorkerLabel(l) then if l.w in s.workers then WorkerStep(s, l, l.w, s.workers[l.w]) else None
    else MainStep(s, l)
  }

  function Run(s: State, ls: seq<Label>): Option<State> { RunOf(Step, s, ls) }

  /** The server before its first event: every worker waits for a task. */
  predicate Initial(s: State) {
    s.capacity > 0 && s.open == {} && s.armed == map[] && s.sock == {} && s.batch == map[] &&
    s.main == Polling && s.queue == [] && (forall w | w in s.workers :: s.workers[w] == Waiting) &&
    s.writeTask == {} && s.improv == {} && s.timerFlag == {} && s.failed == {} &&
    s.appends == 0 && s.finished == 0
  }

  // ---------- who holds a connection ----------

  predicate At(pc: WorkerPc, c: Conn) { !pc.Waiting? && pc.c == c }

  /** Past the re-arming `modfd` of write, or past a failure: `improv` is still to be stored. */
  predicate IsLate(pc: WorkerPc) { pc.Resetting? || pc.WriteDone? || pc.Failing? }

  /** Working on `c` with the connection not yet handed back. */
  predicate IsEarly(pc: WorkerPc, c: Conn) { IsBusy(pc, c) && !IsLate(pc) }

  /** Inside the scheduler with `c`, short of the store of `timer_flag`. */
  predicate IsBusy(pc: WorkerPc, c: Conn) { At(pc, c) && !pc.FlagPending? }

  ghost function Early(c: Conn): WorkerPc -> bool { pc => IsEarly(pc, c) }

  ghost function Busy(c: Conn): WorkerPc -> bool { pc => IsBusy(pc, c) }

  predicate IsUnpublished(pc: WorkerPc) {
    pc.Picked? || pc.Reading? || pc.ReadDone? || pc.Writing? || IsLate(pc)
  }

  ghost function Unpublished(): WorkerPc -> bool { pc => IsUnpublished(pc) }

  predicate IsUnfinished(pc: WorkerPc) { pc.Picked? || pc.Reading? || pc.Writing? || pc.Resetting? }

  ghost function Unfinished(): WorkerPc -> bool { pc => IsUnfinished(pc) }

  predicate MainHolds(pc: MainPc, c: Conn) {
    (pc.Handling? || pc.Appending?) && pc.c == c
  }

  predicate MainLate(pc: MainPc, c: Conn) {
    (pc.MainResetting? || pc.MainClosing?) && pc.c == c
  }

  /** Main, queue or worker: the number of places that hold `c` and will use it. */
  ghost function Held(s: State, c: Conn): nat {
    multiset(s.queue)[c] + Bit(c in s.batch) + Bit(MainHolds(s.main, c)) + Bit(MainLate(s.main, c)) +
    |Those(s.workers, Busy(c))|
  }

  /** The number of owners of `c`: those that hold it before handing it back, and epoll. */
  ghost function Owners(s: State, c: Conn): nat {
    multiset(s.queue)[c] + Bit(c in s.batch) + Bit(MainHolds(s.main, c)) +
    |Those(s.workers, Early(c))| + Bit(c in s.armed)
  }

  /** Main stands somewhere in the reactor handshake of a connection. */
  predicate InHandshake(pc: MainPc) {
    pc.Spinning? || pc.Checking? || pc.Removing? || pc.ClearingFlag? || pc.ClearingImprov?
  }

  ghost predicate OneOwner(s: State) {
    forall c :: Owners(s, c) <= 1 && Held(s, c) <= 1
  }

  /** The connection main is waiting for, with improv not stored yet. */
  predicate Awaited(s: State) { s.main.Spinning? && s.main.c !in s.improv }

  ghost predicate ReactorHandshake(s: State) {
    && |s.queue| + |Those(s.workers, Unpublished())| == Bit(Awaited(s))
    && s.appends == s.finished + |s.queue| + |Those(s.workers, Unfinished())|
    && (s.queue != [] ==>
          s.main.Spinning? && s.queue[0] == s.main.c && (s.main.c in s.writeTask <==> s.main.interest.Writable?))
    && (forall w | w in s.workers && IsUnpublished(s.workers[w]) ::
          var pc := s.workers[w];
          && s.main.Spinning? && pc.c == s.main.c
          && (pc.Picked? ==> (pc.c in s.writeTask <==> s.main.interest.Writable?))
          && (pc.Reading? ==> s.main.interest.Readable?)
          && (pc.Writing? ==> s.main.interest.Writable?))
    && (forall c | c in s.improv :: InHandshake(s.main) && s.main.c == c)
    && (InHandshake(s.main) && !s.main.Spinning? ==> s.main.c in s.improv)
    && !s.main.Appending? && !s.main.MainResetting? && !s.main.MainClosing?
  }

  ghost predicate ProactorDiscipline(s: State) {
    && s.improv == {} && s.timerFlag == {} && s.failed == {} && !InHandshake(s.main)
    && forall w | w in s.workers :: var pc := s.workers[w];
         pc.Waiting? || pc.Picked? || pc.Processing? || pc.Closing? || pc.Forgetting? || pc.Rearming?
  }

  /** Whoever may close a connection for a failure does so on a failure since its last init. */
  ghost predicate FlagsHonest(s: State) {
    && s.timerFlag <= s.failed
    && (forall w | w in s.workers :: var pc := s.workers[w];
          pc.Failing? || pc.FlagPending? ==> pc.c in s.failed)
    && (s.main.Removing? ==> s.main.c in s.failed)
  }

  ghost predicate Inv(s: State) {
    && s.capacity > 0
    && s.armed.Keys <= s.open
    && OneOwner(s)
    && (if s.mode.Reactor? then ReactorHandshake(s) else ProactorDiscipline(s))
    && FlagsHonest(s)
  }

  // ---------- which steps keep the invariant ----------

  /** Some worker has yet to store `timer_flag` for a failed task of `c`. */
  predicate FlagOutstanding(s: State, c: Conn) {
    exists w | w in s.workers :: s.workers[w] == FlagPending(c)
  }

  /**
   What the program does not check: a slot is accepted again only when nobody holds it
   any more, and write's init runs only when no late flag store for the slot is due.
   */
  ghost predicate Calm(s: State, l: Label) {
    match l
    case Accept(c) => Held(s, c) == 0 && !FlagOutstanding(s, c)
    case WorkerReset(w) => w in s.workers && s.workers[w].Resetting? ==> !FlagOutstanding(s, s.workers[w].c)
    case _ => true
  }

  // ---------- one step ----------

  /** All that the ownership count needs to know of a worker's step from `s` to `t`. */
  ghost predicate WorkerShape(s: State, t: State, w: nat) {
    && w in s.workers && w in t.workers && t.workers == s.workers[w := t.workers[w]]
    && t.batch == s.batch && t.main == s.main && t.mode == s.mode && t.capacity == s.capacity
    && (s.armed.Keys <= s.open ==> t.armed.Keys <= t.open)
    && var pc, pc' := s.workers[w], t.workers[w];
    && (if pc.Waiting? then s.queue != [] && t.queue == s.queue[1..] && pc' == Picked(s.queue[0])
        else t.queue == s.queue && (pc'.Waiting? || pc'.c == pc.c))
    && (!pc.Waiting? ==> !pc'.Picked?)
    && (IsLate(pc) ==> IsLate(pc') || pc'.Waiting? || pc'.FlagPending?)
    && (pc.FlagPending? ==> pc'.Waiting?)
    && forall c | c in t.armed ::
         c in s.armed || (IsEarly(pc, c) && !IsEarly(pc', c))
  }

  lemma PickShape(s: State, l: Label, w: nat)
    requires w in s.workers && PickStep(s, l, w, s.workers[w]).Some?
    ensures WorkerShape(s, PickStep(s, l, w, s.workers[w]).value, w)
  {
  }

  lemma ReadShape(s: State, l: Label, w: nat)
    requires w in s.workers && ReadStep(s, l, w, s.workers[w]).Some?
    ensures WorkerShape(s, ReadStep(s, l, w, s.workers[w]).value, w)
  {
  }

  lemma WriteShape(s: State, l: Label, w: nat)
    requires w in s.workers && WriteStep(s, l, w, s.workers[w]).Some?
    ensures WorkerShape(s, WriteStep(s, l, w, s.workers[w]).value, w)
  {
  }

  lemma ProcessShape(s: State, l: Label, w: nat)
    requires w in s.workers && ProcessStep(s, l, w, s.workers[w]).Some?
    ensures WorkerShape(s, ProcessStep(s, l, w, s.workers[w]).value, w)
  {
  }

  /** The owners of one connection across a worker's step. */
  lemma WorkerShapeOwners(s: State, t: State, w: nat, c: Conn)
    requires WorkerShape(s, t, w) && Owners(s, c) <= 1 && Held(s, c) <= 1
    ensures Owners(t, c) <= 1 && Held(t, c) <= 1
  {
    CountAfterMove(s.workers, w, t.workers[w], Early(c));
    CountAfterMove(s.workers, w, t.workers[w], Busy(c));
    if IsEarly(s.workers[w], c) { CountPositive(s.workers, w, Early(c)); }
    assert s.queue != [] ==> s.queue == [s.queue[0]] + s.queue[1..];
  }

  /** Worker `w` is the only one inside the handshake, if it is inside. */
  lemma OnlyUnpublished(s: State, w: nat)
    requires ReactorHandshake(s) && w in s.workers && IsUnpublished(s.workers[w])
    ensures s.queue == [] && Awaited(s) && |Those(s.workers, Unpublished())| == 1
    ensures forall v | v in s.workers && v != w :: !IsUnpublished(s.workers[v])
  {
    CountPositive(s.workers, w, Unpublished());
    forall v | v in s.workers && v != w ensures !IsUnpublished(s.workers[v]) {
      if IsUnpublished(s.workers[v]) { CountPair(s.workers, v, w, Unpublished()); }
    }
  }

  lemma HandshakeCounts(s: State, t: State, w: nat)
    requires w in s.workers && w in t.workers && t.workers == s.workers[w := t.workers[w]]
    ensures |Those(t.workers, Unpublished())| == |Those(s.workers, Unpublished())|
              - Bit(IsUnpublished(s.workers[w])) + Bit(IsUnpublished(t.workers[w]))
    ensures |Those(t.workers, Unfinished())| == |Those(s.workers, Unfinished())|
              - Bit(IsUnfinished(s.workers[w])) + Bit(IsUnfinished(t.workers[w]))
  {
    CountAfterMove(s.workers, w, t.workers[w], Unpublished());
    CountAfterMove(s.workers, w, t.workers[w], Unfinished());
  }

  lemma PickKeepsHandshake(s: State, l: Label, w: nat)
    requires ReactorHandshake(s) && s.mode.Reactor? && w in s.workers
    requires PickStep(s, l, w, s.workers[w]).Some?
    ensures ReactorHandshake(PickStep(s, l, w, s.workers[w]).value)
  {
    HandshakeCounts(s, PickStep(s, l, w, s.workers[w]).value, w);
    if IsUnpublished(s.workers[w]) { OnlyUnpublished(s, w); }
  }

  lemma ReadKeepsHandshake(s: State, l: Label, w: nat)
    requires ReactorHandshake(s) && w in s.workers
    requires ReadStep(s, l, w, s.workers[w]).Some?
    ensures ReactorHandshake(ReadStep(s, l, w, s.workers[w]).value)
  {
    HandshakeCounts(s, ReadStep(s, l, w, s.workers[w]).value, w);
    if IsUnpublished(s.workers[w]) { OnlyUnpublished(s, w); }
  }

  lemma WriteKeepsHandshake(s: State, l: Label, w: nat)
    requires ReactorHandshake(s) && w in s.workers
    requires WriteStep(s, l, w, s.workers[w]).Some?
    ensures ReactorHandshake(WriteStep(s, l, w, s.workers[w]).value)
  {
    HandshakeCounts(s, WriteStep(s, l, w, s.workers[w]).value, w);
    OnlyUnpublished(s, w);
  }

  /** process touches neither the handshake nor its flags. */
  predicate ProcessFrame(s: State, t: State, w: nat) {
    && w in s.workers && w in t.workers && t.workers == s.workers[w := t.workers[w]]
    && !IsUnpublished(s.workers[w]) && !IsUnpublished(t.workers[w]) && !t.workers[w].FlagPending?
    && t.main == s.main && t.queue == s.queue && t.writeTask == s.writeTask
    && t.improv == s.improv && t.timerFlag == s.timerFlag && t.failed == s.failed
    && t.appends == s.appends && t.finished == s.finished
  }

  lemma ProcessFrames(s: State, l: Label, w: nat)
    requires w in s.workers && ProcessStep(s, l, w, s.workers[w]).Some?
    ensures ProcessFrame(s, ProcessStep(s, l, w, s.workers[w]).value, w)
  {
  }

  lemma ProcessFrameKeeps(s: State, t: State, w: nat)
    requires ProcessFrame(s, t, w)
    ensures ReactorHandshake(s) ==> ReactorHandshake(t)
    ensures FlagsHonest(s) ==> FlagsHonest(t)
  {
    HandshakeCounts(s, t, w);
  }

  lemma PickKeepsFlags(s: State, l: Label, w: nat)
    requires FlagsHonest(s) && w in s.workers && PickStep(s, l, w, s.workers[w]).Some?
    ensures FlagsHonest(PickStep(s, l, w, s.workers[w]).value)
  {
  }

  lemma ReadKeepsFlags(s: State, l: Label, w: nat)
    requires FlagsHonest(s) && w in s.workers && ReadStep(s, l, w, s.workers[w]).Some?
    ensures FlagsHonest(ReadStep(s, l, w, s.workers[w]).value)
  {
  }

  /** write's init is the one worker step that can make a late flag store unjustified. */
  lemma WriteKeepsFlags(s: State, l: Label, w: nat)
    requires FlagsHonest(s) && ReactorHandshake(s) && w in s.workers && (l.WorkerReset? ==> l.w == w)
    requires WriteStep(s, l, w, s.workers[w]).Some?
    ensures FlagsHonest(WriteStep(s, l, w, s.workers[w]).value) <==> Calm(s, l)
  {
    var t := WriteStep(s, l, w, s.workers[w]).value;
    OnlyUnpublished(s, w);
    if l.WorkerReset? {
      var c := s.workers[w].c;
      if FlagOutstanding(s, c) {
        var v :| v in s.workers && s.workers[v] == FlagPending(c);
        assert t.workers[v] == FlagPending(c) && c !in t.failed;
      }
    }
  }

  /** From the shape of a step and its handshake to the whole invariant, up to the flags. */
  lemma AssembleWorker(s: State, t: State, w: nat)
    requires Inv(s) && WorkerShape(s, t, w)
    requires if s.mode.Reactor? then ReactorHandshake(t) else ProactorDiscipline(t)
    ensures Inv(t) <==> FlagsHonest(t)
  {
    forall c ensures Owners(t, c) <= 1 && Held(t, c) <= 1 {
      WorkerShapeOwners(s, t, w, c);
    }
  }

  lemma ReactorWorkerKeeps(s: State, l: Label, w: nat)
    requires Inv(s) && s.mode.Reactor? && w in s.workers && (l.WorkerReset? ==> l.w == w) && !l.Accept?
    requires WorkerStep(s, l, w, s.workers[w]).Some?
    ensures Inv(WorkerStep(s, l, w, s.workers[w]).value) <==> Calm(s, l)
  {
    var pc := s.workers[w];
    if pc.Waiting? || pc.Picked? {
      PickShape(s, l, w); PickKeepsHandshake(s, l, w); PickKeepsFlags(s, l, w);
      AssembleWorker(s, PickStep(s, l, w, pc).value, w);
    } else if pc.Writing? || pc.Resetting? || pc.WriteDone? {
      WriteShape(s, l, w); WriteKeepsHandshake(s, l, w); WriteKeepsFlags(s, l, w);
      AssembleWorker(s, WriteStep(s, l, w, pc).value, w);
    } else if pc.Reading? || pc.ReadDone? || pc.Failing? || pc.FlagPending? {
      ReadShape(s, l, w); ReadKeepsHandshake(s, l, w); ReadKeepsFlags(s, l, w);
      AssembleWorker(s, ReadStep(s, l, w, pc).value, w);
    } else {
      ProcessShape(s, l, w); ProcessFrames(s, l, w);
      ProcessFrameKeeps(s, ProcessStep(s, l, w, pc).value, w);
      AssembleWorker(s, ProcessStep(s, l, w, pc).value, w);
    }
  }

  lemma PickKeepsDiscipline(s: State, l: Label, w: nat)
    requires ProactorDiscipline(s) && s.mode.Proactor? && w in s.workers
    requires PickStep(s, l, w, s.workers[w]).Some?
    ensures ProactorDiscipline(PickStep(s, l, w, s.workers[w]).value)
  {
  }

  lemma ProcessKeepsDiscipline(s: State, l: Label, w: nat)
    requires ProactorDiscipline(s) && s.mode.Proactor? && w in s.workers
    requires ProcessStep(s, l, w, s.workers[w]).Some?
    ensures ProactorDiscipline(ProcessStep(s, l, w, s.workers[w]).value)
  {
  }

  lemma ProactorWorkerKeeps(s: State, l: Label, w: nat)
    requires Inv(s) && s.mode.Proactor? && w in s.workers && !l.Accept?
    requires WorkerStep(s, l, w, s.workers[w]).Some?
    ensures Inv(WorkerStep(s, l, w, s.workers[w]).value) && Calm(s, l)
  {
    var pc := s.workers[w];
    if pc.Waiting? || pc.Picked? {
      PickShape(s, l, w); PickKeepsDiscipline(s, l, w); PickKeepsFlags(s, l, w);
      AssembleWorker(s, PickStep(s, l, w, pc).value, w);
    } else {
      ProcessShape(s, l, w); ProcessKeepsDiscipline(s, l, w); ProcessFrames(s, l, w);
      ProcessFrameKeeps(s, ProcessStep(s, l, w, pc).value, w);
      AssembleWorker(s, ProcessStep(s, l, w, pc).value, w);
    }
  }

  /** Outside a handshake every busy worker is early, so an armed connection is held by nobody. */
  lemma PollingHolds(s: State)
    requires Inv(s) && s.main == Polling
    ensures forall c :: Owners(s, c) == Held(s, c) + Bit(c in s.armed)
  {
    forall w | w in s.workers ensures !IsLate(s.workers[w]) {
      if s.mode.Reactor? && IsLate(s.workers[w]) { OnlyUnpublished(s, w); }
    }
    forall c ensures Owners(s, c) == Held(s, c) + Bit(c in s.armed) {
      assert Those(s.workers, Busy(c)) == Those(s.workers, Early(c));
    }
  }

  /** What the ownership counts of a main step depend on. */
  ghost predicate MainShape(s: State, t: State) {
    && t.workers == s.workers && t.mode == s.mode && t.capacity == s.capacity
    && (s.armed.Keys <= s.open ==> t.armed.Keys <= t.open)
    && forall c :: Owners(s, c) <= 1 && Held(s, c) <= 1 ==> Owners(t, c) <= 1 && Held(t, c) <= 1
  }

  lemma AssembleMain(s: State, t: State)
    requires Inv(s) && MainShape(s, t)
    requires if s.mode.Reactor? then ReactorHandshake(t) else ProactorDiscipline(t)
    requires FlagsHonest(t)
    ensures Inv(t)
  {
  }

  lemma AcceptOwners(s: State, c: Conn)
    requires Inv(s) && s.main == Polling && c !in s.open
    ensures var t := LoopStep(s, Accept(c)).value;
            (Held(s, c) == 0 ==> MainShape(s, t)) && (Held(s, c) > 0 ==> Owners(t, c) > 1)
  {
    PollingHolds(s);
  }

  lemma AcceptFlags(s: State, c: Conn)
    requires Inv(s) && s.main == Polling && c !in s.open
    ensures FlagsHonest(LoopStep(s, Accept(c)).value) <==> !FlagOutstanding(s, c)
  {
    var t := LoopStep(s, Accept(c)).value;
    forall w | w in s.workers ensures !s.workers[w].Failing? {
      if s.mode.Reactor? && s.workers[w].Failing? { OnlyUnpublished(s, w); }
    }
    if FlagOutstanding(s, c) {
      var w :| w in s.workers && s.workers[w] == FlagPending(c);
      assert t.workers[w] == FlagPending(c) && c !in t.failed;
    }
  }

  /** Accepting on a slot is safe exactly when nobody holds the slot. */
  lemma AcceptKeeps(s: State, c: Conn)
    requires Inv(s) && s.main == Polling && c !in s.open
    ensures Inv(LoopStep(s, Accept(c)).value) <==> Calm(s, Accept(c))
  {
    AcceptOwners(s, c);
    AcceptFlags(s, c);
  }

  lemma PollOwners(s: State, events: map<Conn, Event>)
    requires Inv(s) && s.main == Polling && LoopStep(s, Poll(events)).Some?
    ensures MainShape(s, LoopStep(s, Poll(events)).value)
  {
    PollingHolds(s);
  }

  lemma ExpireOwners(s: State, c: Conn)
    requires s.main == Polling && LoopStep(s, Expire(c)).Some?
    ensures MainShape(s, LoopStep(s, Expire(c)).value)
  {
  }

  lemma DispatchOwners(s: State, c: Conn)
    requires s.main == Polling && LoopStep(s, Dispatch(c)).Some?
    ensures MainShape(s, LoopStep(s, Dispatch(c)).value)
  {
  }

  lemma LoopKeeps(s: State, l: Label)
    requires Inv(s) && s.main == Polling && !l.Accept? && LoopStep(s, l).Some?
    ensures Inv(LoopStep(s, l).value)
  {
    if l.Poll? { PollOwners(s, l.events); } else if l.Expire? { ExpireOwners(s, l.c); } else { DispatchOwners(s, l.c); }
    AssembleMain(s, LoopStep(s, l).value);
  }

  /** Main moves on without taking anything up: it may hand over to epoll what it held. */
  ghost predicate Releases(s: State, t: State) {
    && t.workers == s.workers && t.mode == s.mode && t.capacity == s.capacity
    && t.queue == s.queue && t.batch == s.batch && (s.armed.Keys <= s.open ==> t.armed.Keys <= t.open)
    && (forall c :: MainHolds(t.main, c) ==> MainHolds(s.main, c))
    && (forall c :: MainLate(t.main, c) ==> MainHolds(s.main, c) && !MainHolds(t.main, c))
    && forall c | c in t.armed :: c in s.armed || (MainHolds(s.main, c) && !MainHolds(t.main, c))
  }

  lemma ReleasesKeepsOwners(s: State, t: State)
    requires Releases(s, t)
    ensures MainShape(s, t)
  {
  }

  lemma AppendKeeps(s: State)
    requires Inv(s) && s.mode.Reactor? && s.main.Handling?
    ensures Inv(AppendStep(s, s.main.c, s.main.interest))
  {
    var t := AppendStep(s, s.main.c, s.main.interest);
    assert s.queue == [] && t.queue == [s.main.c];
    forall w | w in s.workers ensures !IsUnpublished(s.workers[w]) {
      if IsUnpublished(s.workers[w]) { OnlyUnpublished(s, w); }
    }
    assert MainShape(s, t);
  }

  lemma HandshakeReleases(s: State, l: Label)
    requires InHandshake(s.main) && MainStep(s, l).Some?
    ensures Releases(s, MainStep(s, l).value)
  {
  }

  lemma HandshakeKeeps(s: State, l: Label)
    requires Inv(s) && s.mode.Reactor? && InHandshake(s.main) && MainStep(s, l).Some?
    ensures Inv(MainStep(s, l).value)
  {
    forall w | w in s.workers && IsUnpublished(s.workers[w]) ensures false {
      OnlyUnpublished(s, w);
    }
    HandshakeReleases(s, l);
    ReleasesKeepsOwners(s, MainStep(s, l).value);
    AssembleMain(s, MainStep(s, l).value);
  }

  lemma ProactorReleases(s: State, l: Label)
    requires s.mode.Proactor? && s.main.Handling?
    requires ProactorStep(s, l, s.main.c, s.main.interest).Some?
    ensures Releases(s, ProactorStep(s, l, s.main.c, s.main.interest).value)
  {
  }

  lemma ProactorKeeps(s: State, l: Label)
    requires Inv(s) && s.mode.Proactor? && s.main.Handling?
    requires ProactorStep(s, l, s.main.c, s.main.interest).Some?
    ensures Inv(ProactorStep(s, l, s.main.c, s.main.interest).value)
  {
    ProactorReleases(s, l);
    ReleasesKeepsOwners(s, ProactorStep(s, l, s.main.c, s.main.interest).value);
    AssembleMain(s, ProactorStep(s, l, s.main.c, s.main.interest).value);
  }

  lemma ProactorTailKeeps(s: State, l: Label)
    requires Inv(s) && s.mode.Proactor?
    requires s.main.Appending? || s.main.MainResetting? || s.main.MainClosing?
    requires MainStep(s, l).Some?
    ensures Inv(MainStep(s, l).value)
  {
    AssembleMain(s, MainStep(s, l).value);
  }

  lemma MainKeeps(s: State, l: Label)
    requires Inv(s) && MainStep(s, l).Some? && !l.WorkerReset?
    ensures Inv(MainStep(s, l).value) <==> Calm(s, l)
  {
    match s.main
    case Polling => if l.Accept? { AcceptKeeps(s, l.c); } else { LoopKeeps(s, l); }
    case Handling(_, _) => if s.mode.Proactor? { ProactorKeeps(s, l); } else { AppendKeeps(s); }
    case Appending(_) => ProactorTailKeeps(s, l);
    case MainResetting(_) => ProactorTailKeeps(s, l);
    case MainClosing(_) => ProactorTailKeeps(s, l);
    case _ => HandshakeKeeps(s, l);
  }

  /**
   Main result, one step: from a state that satisfies the invariant every possible step
   leads to one again, if and only if it is calm.
   */
  lemma StepKeepsExactlyWhenCalm(s: State, l: Label)
    requires Inv(s) && Step(s, l).Some?
    ensures Inv(Step(s, l).value) <==> Calm(s, l)
  {
    if IsWorkerLabel(l) {
      if s.mode.Reactor? { ReactorWorkerKeeps(s, l, l.w); } else { ProactorWorkerKeeps(s, l, l.w); }
    } else {
      MainKeeps(s, l);
    }
  }

  // ---------- whole runs ----------

  /** Every step of the run is calm where it is taken. */
  ghost predicate CalmRun(s: State, ls: seq<Label>)
    decreases |ls|
  {
    ls != [] ==> Calm(s, ls[0]) && (Step(s, ls[0]).Some? ==> CalmRun(Step(s, ls[0]).value, ls[1..]))
  }

  lemma {:induction false} RunKeeps(s: State, ls: seq<Label>)
    requires Inv(s) && Run(s, ls).Some? && CalmRun(s, ls)
    ensures Inv(Run(s, ls).value)
    decreases |ls|
  {
    if ls != [] {
      StepKeepsExactlyWhenCalm(s, ls[0]);
      RunKeeps(Step(s, ls[0]).value, ls[1..]);
    }
  }

  lemma InitialInv(s: State)
    requires Initial(s)
    ensures Inv(s)
  {
    assert Those(s.workers, Unpublished()) == {} && Those(s.workers, Unfinished()) == {};
    forall c ensures Owners(s, c) == 0 && Held(s, c) == 0 {
      assert Those(s.workers, Early(c)) == {} && Those(s.workers, Busy(c)) == {};
    }
  }

  /** Worker `w` is executing read_once, process or write (with its init) on `c`. */
  predicate WorkerRuns(s: State, w: nat, c: Conn) {
    w in s.workers &&
    var pc := s.workers[w];
    (pc.Reading? || pc.Writing? || pc.Resetting? || pc.Processing? || pc.Closing? || pc.Forgetting? ||
     pc.Rearming?) && pc.c == c
  }

  /** The main thread is executing read_once or write (with its init) on `c`. */
  predicate MainRuns(s: State, c: Conn) {
    (s.mode.Proactor? && s.main.Handling? && s.main.c == c) || MainLate(s.main, c)
  }

  /** Main result: in a calm run no two threads ever run the methods of one connection at once. */
  lemma NoTwoThreads(s0: State, ls: seq<Label>, c: Conn, w: nat)
    requires Initial(s0) && Run(s0, ls).Some? && CalmRun(s0, ls)
    requires WorkerRuns(Run(s0, ls).value, w, c)
    ensures var s := Run(s0, ls).value;
            && (forall v | v != w :: !WorkerRuns(s, v, c))
            && !MainRuns(s, c) && c !in s.queue && c !in s.batch
            && (c in s.armed ==> s.mode.Reactor? && s.main.Spinning? && s.main.c == c && c !in s.improv)
  {
    InitialInv(s0);
    RunKeeps(s0, ls);
    var s := Run(s0, ls).value;
    assert Owners(s, c) <= 1 && Held(s, c) <= 1;
    CountPositive(s.workers, w, Busy(c));
    if IsEarly(s.workers[w], c) {
      CountPositive(s.workers, w, Early(c));
    } else if s.mode.Reactor? {
      OnlyUnpublished(s, w);
    }
    forall v | v != w ensures !WorkerRuns(s, v, c) {
      if WorkerRuns(s, v, c) { CountPair(s.workers, v, w, Busy(c)); }
    }
  }

  /**
   Main result for the reactor: in a calm run the queue never holds two tasks, improv is set
   only inside a handshake on that very connection, main leaves its spin only when read_once
   or write has returned for every append so far, and it removes a timer only after a failure.
   */
  lemma ReactorHandshakeHolds(s0: State, ls: seq<Label>)
    requires Initial(s0) && s0.mode.Reactor? && Run(s0, ls).Some? && CalmRun(s0, ls)
    ensures var s := Run(s0, ls).value;
            && |s.queue| <= 1
            && (s.main.Handling? ==> |s.queue| < s.capacity)
            && (forall c | c in s.improv :: InHandshake(s.main) && s.main.c == c)
            && (InHandshake(s.main) && !s.main.Spinning? ==> s.finished == s.appends)
            && (s.main.Removing? ==> s.main.c in s.failed)
            && (forall w | w in s.workers && s.workers[w].Reading? ::
                  s.main == Spinning(s.workers[w].c, Readable))
            && (forall w | w in s.workers && s.workers[w].Writing? ::
                  s.main == Spinning(s.workers[w].c, Writable))
  {
    InitialInv(s0);
    RunKeeps(s0, ls);
    RunMode(s0, ls);
    var s := Run(s0, ls).value;
    if InHandshake(s.main) && !s.main.Spinning? {
      forall w | w in s.workers && IsUnpublished(s.workers[w]) ensures false {
        OnlyUnpublished(s, w);
      }
      assert Those(s.workers, Unfinished()) == {};
    }
  }

  lemma {:induction false} RunMode(s: State, ls: seq<Label>)
    requires Run(s, ls).Some?
    ensures Run(s, ls).value.mode == s.mode
    decreases |ls|
  {
    if ls != [] {
      StepMode(s, ls[0]);
      RunMode(Step(s, ls[0]).value, ls[1..]);
    }
  }

  lemma StepMode(s: State, l: Label)
    requires Step(s, l).Some?
    ensures Step(s, l).value.mode == s.mode
  {
  }
}
