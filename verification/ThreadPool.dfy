/**
 The worker pool: a bounded list guarded by a mutex, with a semaphore that counts posted
 tasks. A step is one mutex, semaphore or list operation of one thread, so any number of
 workers in `run` and of callers in `append` interleave freely.
 */
module ThreadPool {
  import opened ThreadCounts
  import opened Runs
  import opened Wrappers

  type Task = nat

  datatype AppenderPc =
    | AtLock(task: Task)
    | Locked(task: Task)     // has the mutex, about to test the size
    | Admitted(task: Task)   // the list has room
    | Refusing               // the list is full, about to unlock
    | Pushed                 // about to unlock
    | Posting                // unlocked, about to post
    | Returned(ok: bool)

  datatype WorkerPc =
    | AtWait
    | Woken                  // past the semaphore wait
    | Contending             // trylock failed, waiting in lock
    | SlowLocked             // has the mutex, about to test for the empty list
    | Popping                // has the mutex, about to take the front
    | Holding(i: nat)        // took the i-th accepted task, about to unlock
    | Running(i: nat)        // in doSchedule with it

  datatype Thread = Appender(a: nat) | Worker(w: nat)

  /**
   `accepted`, `takers` and `executed` are history: the i-th accepted task is `accepted[i]`,
   and it was taken by worker `takers[i]`.
   */
  datatype Pool = Pool(
    maxRequests: nat,
    queue: seq<Task>,
    semaphore: nat,
    mutex: Option<Thread>,
    workers: map<nat, WorkerPc>,
    appenders: map<nat, AppenderPc>,
    accepted: seq<Task>,
    takers: seq<nat>,
    executed: set<nat>)

  datatype Label = Call(a: nat, task: Task) | Append(a: nat) | Work(w: nat)

  // ---------- the steps ----------

  /** The next operation of a caller of `append` standing at `pc`. */
  function AppendStep(s: Pool, a: nat, pc: AppenderPc): Option<Pool> {
    match pc
    case AtLock(task) =>
      if s.mutex.None? then Some(s.(mutex := Some(Appender(a)), appenders := s.appenders[a := Locked(task)]))
      else None
    case Locked(task) =>
      Some(s.(appenders := s.appenders[a := if |s.queue| >= s.maxRequests then Refusing else Admitted(task)]))
    case Admitted(task) =>
      Some(s.(queue := s.queue + [task], accepted := s.accepted + [task],
              appenders := s.appenders[a := Pushed]))
    case Refusing => Some(s.(mutex := None, appenders := s.appenders[a := Returned(false)]))
    case Pushed => Some(s.(mutex := None, appenders := s.appenders[a := Posting]))
    case Posting => Some(s.(semaphore := s.semaphore + 1, appenders := s.appenders[a := Returned(true)]))
    case Returned(_) => None
  }

  /** The next operation of a worker in `run` standing at `pc`; None also for a pop from the empty list. */
  function WorkStep(s: Pool, w: nat, pc: WorkerPc): Option<Pool> {
    match pc
    case AtWait =>
      if s.semaphore > 0 then Some(s.(semaphore := s.semaphore - 1, workers := s.workers[w := Woken])) else None
    case Woken =>
      Some(if s.mutex.None? then s.(mutex := Some(Worker(w)), workers := s.workers[w := Popping])
           else s.(workers := s.workers[w := Contending]))
    case Contending =>
      if s.mutex.None? then Some(s.(mutex := Some(Worker(w)), workers := s.workers[w := SlowLocked])) else None
    case SlowLocked =>
      Some(if s.queue == [] then s.(mutex := None, workers := s.workers[w := AtWait])
           else s.(workers := s.workers[w := Popping]))
    case Popping =>
      if s.queue == [] then None
      else Some(s.(queue := s.queue[1..], takers := s.takers + [w],
                   workers := s.workers[w := Holding(|s.takers|)]))
    case Holding(i) => Some(s.(mutex := None, workers := s.workers[w := Running(i)]))
    case Running(i) => Some(s.(executed := s.executed + {i}, workers := s.workers[w := AtWait]))
  }

  function Step(s: Pool, l: Label): Option<Pool> {
    match l
    case Call(a, task) =>
      if a in s.appenders && !s.appenders[a].Returned? then None
      else Some(s.(appenders := s.appenders[a := AtLock(task)]))
    case Append(a) => if a in s.appenders then AppendStep(s, a, s.appenders[a]) else None
    case Work(w) => if w in s.workers then WorkStep(s, w, s.workers[w]) else None
  }

  predicate Initial(s: Pool) {
    s.maxRequests > 0 && s.queue == [] && s.semaphore == 0 && s.mutex == None &&
    (forall w | w in s.workers :: s.workers[w] == AtWait) && s.appenders == map[] &&
    s.accepted == [] && s.takers == [] && s.executed == {}
  }

  /** `s` can be reached from an initial pool in `n` steps. */
  ghost predicate Reachable(s: Pool, n: nat)
    decreases n
  {
    if n == 0 then Initial(s)
    else exists r, l :: Reachable(r, n - 1) && Step(r, l) == Some(s)
  }

  // ---------- the invariant ----------

  predicate IsPastWait(pc: WorkerPc) { pc.Woken? || pc.Contending? || pc.SlowLocked? || pc.Popping? }

  predicate IsBeforePost(pc: AppenderPc) { pc.Pushed? || pc.Posting? }

  ghost function PastWait(): WorkerPc -> bool { pc => IsPastWait(pc) }

  ghost function BeforePost(): AppenderPc -> bool { pc => IsBeforePost(pc) }

  /** Every queued task is paid for: by the semaphore, a woken worker or a coming post. */
  ghost predicate Counted(s: Pool) {
    |s.queue| == s.semaphore + |Those(s.workers, PastWait())| + |Those(s.appenders, BeforePost())|
  }

  ghost predicate MutexHeld(s: Pool) {
    && (s.mutex.Some? ==>
          if s.mutex.value.Appender? then s.mutex.value.a in s.appenders else s.mutex.value.w in s.workers)
    && (forall a | a in s.appenders :: var pc := s.appenders[a];
          (pc.Locked? || pc.Admitted? || pc.Refusing? || pc.Pushed?) <==> s.mutex == Some(Appender(a)))
    && (forall w | w in s.workers :: var pc := s.workers[w];
          (pc.SlowLocked? || pc.Popping? || pc.Holding?) <==> s.mutex == Some(Worker(w)))
  }

  ghost predicate Bounded(s: Pool) {
    && |s.queue| <= s.maxRequests
    && forall a | a in s.appenders && s.appenders[a].Admitted? :: |s.queue| < s.maxRequests
  }

  predicate InHand(pc: WorkerPc, i: int) { (pc.Holding? || pc.Running?) && pc.i == i }

  /** Tasks leave in the order accepted. */
  predicate InOrder(s: Pool) {
    |s.takers| <= |s.accepted| && s.queue == s.accepted[|s.takers|..]
  }

  /** Each task taken is executed, or still in the hand of the worker that took it ... */
  predicate NoneLost(s: Pool) {
    forall i | 0 <= i < |s.takers| && i !in s.executed ::
      s.takers[i] in s.workers && InHand(s.workers[s.takers[i]], i)
  }

  /** ... not both, and in no other hand. */
  predicate NoneTwice(s: Pool) {
    && (forall i | i in s.executed :: i < |s.takers|)
    && (forall w | w in s.workers && (s.workers[w].Holding? || s.workers[w].Running?) ::
          var i := s.workers[w].i;
          i < |s.takers| && s.takers[i] == w && i !in s.executed)
  }

  ghost predicate Inv(s: Pool) {
    Counted(s) && MutexHeld(s) && Bounded(s) && InOrder(s) && NoneLost(s) && NoneTwice(s)
  }

  // ---------- the invariant holds ----------

  lemma AppendKeepsCounts(s: Pool, a: nat)
    requires Inv(s) && a in s.appenders && AppendStep(s, a, s.appenders[a]).Some?
    ensures var t := AppendStep(s, a, s.appenders[a]).value;
            Counted(t) && MutexHeld(t) && Bounded(t)
  {
    CountAfterMove(s.appenders, a, AppendStep(s, a, s.appenders[a]).value.appenders[a], BeforePost());
  }

  lemma AppendKeepsOrder(s: Pool, a: nat)
    requires InOrder(s) && a in s.appenders && AppendStep(s, a, s.appenders[a]).Some?
    ensures var t := AppendStep(s, a, s.appenders[a]).value;
            InOrder(t) && t.workers == s.workers && t.takers == s.takers && t.executed == s.executed
  {
  }

  /** A worker past the wait that holds the mutex finds a task: pop never meets an empty list. */
  lemma PopFindsTask(s: Pool, w: nat)
    requires Inv(s) && w in s.workers && IsPastWait(s.workers[w])
    ensures s.queue != []
  {
    CountPositive(s.workers, w, PastWait());
  }

  lemma WorkKeepsCounts(s: Pool, w: nat)
    requires Inv(s) && w in s.workers && WorkStep(s, w, s.workers[w]).Some?
    ensures var t := WorkStep(s, w, s.workers[w]).value;
            Counted(t) && MutexHeld(t) && Bounded(t)
  {
    var t := WorkStep(s, w, s.workers[w]).value;
    CountAfterMove(s.workers, w, t.workers[w], PastWait());
    if IsPastWait(s.workers[w]) { PopFindsTask(s, w); }
  }

  lemma WorkKeepsOrder(s: Pool, w: nat)
    requires InOrder(s) && w in s.workers && WorkStep(s, w, s.workers[w]).Some?
    ensures InOrder(WorkStep(s, w, s.workers[w]).value)
  {
  }

  lemma WorkKeepsService(s: Pool, w: nat)
    requires NoneLost(s) && NoneTwice(s) && w in s.workers && WorkStep(s, w, s.workers[w]).Some?
    ensures var t := WorkStep(s, w, s.workers[w]).value;
            NoneLost(t) && NoneTwice(t)
  {
  }

  lemma StepKeeps(s: Pool, l: Label)
    requires Inv(s) && Step(s, l).Some?
    ensures Inv(Step(s, l).value)
  {
    match l
    case Call(a, task) =>
      if a in s.appenders { CountAfterMove(s.appenders, a, AtLock(task), BeforePost()); }
      assert a !in s.appenders ==>
        Those(s.appenders[a := AtLock(task)], BeforePost()) == Those(s.appenders, BeforePost());
    case Append(a) => AppendKeepsCounts(s, a); AppendKeepsOrder(s, a);
    case Work(w) => WorkKeepsCounts(s, w); WorkKeepsOrder(s, w); WorkKeepsService(s, w);
  }

  lemma {:induction false} ReachableInv(s: Pool, n: nat)
    requires Reachable(s, n)
    ensures Inv(s)
    decreases n
  {
    if n == 0 {
      assert Those(s.workers, PastWait()) == {};
    } else {
      var r, l :| Reachable(r, n - 1) && Step(r, l) == Some(s);
      ReachableInv(r, n - 1);
      StepKeeps(r, l);
    }
  }

  // ---------- the list as an atomic queue ----------

  /** What a step is to somebody who sees the list alone. */
  datatype Act = Keep | Accept(task: Task) | Refuse | Take

  function ActOf(s: Pool, l: Label): Act {
    match l
    case Call(_, _) => Keep
    case Append(a) =>
      if a !in s.appenders then Keep
      else (match s.appenders[a]
            case Admitted(task) => Accept(task)
            case Locked(_) => if |s.queue| >= s.maxRequests then Refuse else Keep
            case _ => Keep)
    case Work(w) => if w in s.workers && s.workers[w].Popping? then Take else Keep
  }

  /** A bounded queue with operations in one piece; None for one that it does not allow. */
  function QueueStep(bound: nat, q: seq<Task>, act: Act): Option<seq<Task>> {
    match act
    case Keep => Some(q)
    case Accept(task) => if |q| < bound then Some(q + [task]) else None
    case Refuse => if |q| >= bound then Some(q) else None
    case Take => if q != [] then Some(q[1..]) else None
  }

  lemma StepRefines(s: Pool, l: Label)
    requires Inv(s) && Step(s, l).Some?
    ensures QueueStep(s.maxRequests, s.queue, ActOf(s, l)) == Some(Step(s, l).value.queue)
    ensures Step(s, l).value.maxRequests == s.maxRequests
  {
  }

  function Run(s: Pool, ls: seq<Label>): Option<Pool> { RunOf(Step, s, ls) }

  function QueueRun(bound: nat, q: seq<Task>, acts: seq<Act>): Option<seq<Task>> {
    RunOf((p: seq<Task>, act: Act) => QueueStep(bound, p, act), q, acts)
  }

  function ActsOf(s: Pool, ls: seq<Label>): seq<Act>
    decreases |ls|
  {
    if ls == [] || Step(s, ls[0]).None? then [] else [ActOf(s, ls[0])] + ActsOf(Step(s, ls[0]).value, ls[1..])
  }

  /** Main result: in any run the list is a bounded queue whose operations happen in one piece. */
  lemma {:induction false} RunRefines(s: Pool, ls: seq<Label>)
    requires Inv(s) && Run(s, ls).Some?
    ensures QueueRun(s.maxRequests, s.queue, ActsOf(s, ls)) == Some(Run(s, ls).value.queue)
    decreases |ls|
  {
    if ls != [] {
      var t := Step(s, ls[0]).value;
      StepKeeps(s, ls[0]);
      StepRefines(s, ls[0]);
      RunRefines(t, ls[1..]);
      assert ActsOf(s, ls)[1..] == ActsOf(t, ls[1..]);
    }
  }

  /** Where a call of append stands, by what it has done to the list. */
  lemma CallActsOnce(s: Pool, a: nat)
    requires a in s.appenders && Step(s, Append(a)).Some?
    ensures var (pc, act, next) := (s.appenders[a], ActOf(s, Append(a)), Step(s, Append(a)).value.appenders[a]);
            && (act.Accept? <==> pc.Admitted?) && (act.Refuse? <==> next.Refusing?)
            && (pc.Admitted? ==> act.task == pc.task && next.Pushed?)
            && (pc.Pushed? ==> next.Posting?) && (next == Returned(true) <==> pc.Posting?)
            && (next == Returned(false) <==> pc.Refusing?)
  {
  }

  // ---------- what it means ----------

  /**
   Main result: in every reachable state each accepted task is queued at its place, in the
   hand of the one worker that took it, or executed, and exactly one of these.
   */
  lemma EachTaskOnce(s: Pool, n: nat, i: nat)
    requires Reachable(s, n) && i < |s.accepted|
    ensures
      var queued := i >= |s.takers|;
      var held := exists w :: w in s.workers && InHand(s.workers[w], i);
      && |s.queue| == |s.accepted| - |s.takers| <= s.maxRequests
      && (queued ==> s.queue[i - |s.takers|] == s.accepted[i] && !held && i !in s.executed)
      && (!queued ==> (held <==> i !in s.executed))
      && (forall v, w :: v in s.workers && w in s.workers && InHand(s.workers[v], i) && InHand(s.workers[w], i) ==>
            v == w)
  {
    ReachableInv(s, n);
  }

  /**
   Main result: the fast path of `run`, which takes the mutex with trylock and does not test
   the list, is as good as the slow one: whoever is past the wait finds a task.
   */
  lemma NoPopFromEmpty(s: Pool, n: nat, w: nat)
    requires Reachable(s, n) && w in s.workers
    requires s.workers[w].Popping? || s.workers[w].SlowLocked?
    ensures s.queue != [] && Step(s, Work(w)).Some?
    ensures s.workers[w].SlowLocked? ==> Step(s, Work(w)).value.workers[w] == Popping
    ensures s.workers[w].Popping? ==>
              var t := Step(s, Work(w)).value;
              t.workers[w] == Holding(|s.takers|) &&
              |s.takers| < |s.accepted| && s.queue[0] == s.accepted[|s.takers|]
  {
    ReachableInv(s, n);
    PopFindsTask(s, w);
  }

  // ---------- going on ----------

  /** No operation of append or run can be made. */
  predicate Stuck(s: Pool) {
    && (forall a | a in s.appenders :: Step(s, Append(a)).None?)
    && (forall w | w in s.workers :: Step(s, Work(w)).None?)
  }

  /**
   Main result on going on: when in a reachable state nobody can make a step, every call of
   append has returned, every accepted task is executed and the workers wait for the next.
   */
  lemma StuckIsIdle(s: Pool, n: nat)
    requires Reachable(s, n) && Stuck(s) && s.workers != map[]
    ensures s.mutex.None? && s.queue == [] && s.semaphore == 0
    ensures forall a | a in s.appenders :: s.appenders[a].Returned?
    ensures forall w | w in s.workers :: s.workers[w].AtWait?
    ensures |s.takers| == |s.accepted| && forall i | 0 <= i < |s.accepted| :: i in s.executed
  {
    ReachableInv(s, n);
    if s.mutex.Some? { HolderGoesOn(s, n); }
    forall a | a in s.appenders ensures s.appenders[a].Returned? { assert Step(s, Append(a)).None?; }
    forall w | w in s.workers ensures s.workers[w].AtWait? && s.semaphore == 0 { assert Step(s, Work(w)).None?; }
    var w :| w in s.workers;
    assert Those(s.workers, PastWait()) == {} && Those(s.appenders, BeforePost()) == {};
  }

  lemma HolderGoesOn(s: Pool, n: nat)
    requires Reachable(s, n) && Inv(s) && s.mutex.Some?
    ensures !Stuck(s)
  {
    match s.mutex.value
    case Appender(a) => assert Step(s, Append(a)).Some?;
    case Worker(w) =>
      if s.workers[w].Popping? { NoPopFromEmpty(s, n, w); }
      assert Step(s, Work(w)).Some?;
  }

  /** Moves one thread on. */
  lemma Onward(s: Pool, l: Label, t: Pool, ls: seq<Label>)
    requires Step(s, l).Some?
    requires var u := Step(s, l).value; u.workers == t.workers && u.appenders == t.appenders &&
                                        u == t.(workers := u.workers, appenders := u.appenders)
    ensures Run(s, [l] + ls) == Run(t, ls)
  {
    RunOfFirst(Step, s, l, t, ls);
  }

  function Times<T>(x: T, k: nat): seq<T> { if k == 0 then [] else [x] + Times(x, k - 1) }

  /** A call of append alone: true with the task at the end of the list, or false with nothing done. */
  lemma AppendAlone(s: Pool, a: nat, task: Task)
    requires a in s.appenders && s.appenders[a] == AtLock(task) && s.mutex.None?
    ensures |s.queue| < s.maxRequests ==>
              Run(s, Times(Append(a), 5)) ==
              Some(s.(queue := s.queue + [task], accepted := s.accepted + [task], semaphore := s.semaphore + 1,
                      appenders := s.appenders[a := Returned(true)]))
    ensures |s.queue| >= s.maxRequests ==>
              Run(s, Times(Append(a), 3)) == Some(s.(appenders := s.appenders[a := Returned(false)]))
  {
    var l := Append(a);
    var s1 := s.(mutex := Some(Appender(a)), appenders := s.appenders[a := Locked(task)]);
    if |s.queue| < s.maxRequests { Admits(s, s1, a, task); } else { Refuses(s, s1, a, task); }
  }

  lemma Refuses(s: Pool, s1: Pool, a: nat, task: Task)
    requires a in s.appenders && s.appenders[a] == AtLock(task) && s.mutex.None? && |s.queue| >= s.maxRequests
    requires s1 == s.(mutex := Some(Appender(a)), appenders := s.appenders[a := Locked(task)])
    ensures Run(s, Times(Append(a), 3)) == Some(s.(appenders := s.appenders[a := Returned(false)]))
  {
    var l := Append(a);
    var s2 := s1.(appenders := s.appenders[a := Refusing]);
    var s3 := s.(appenders := s.appenders[a := Returned(false)]);
    Onward(s, l, s1, Times(l, 2));
    Onward(s1, l, s2, Times(l, 1));
    Onward(s2, l, s3, Times(l, 0));
  }

  lemma Admits(s: Pool, s1: Pool, a: nat, task: Task)
    requires a in s.appenders && s.appenders[a] == AtLock(task) && s.mutex.None? && |s.queue| < s.maxRequests
    requires s1 == s.(mutex := Some(Appender(a)), appenders := s.appenders[a := Locked(task)])
    ensures Run(s, Times(Append(a), 5)) ==
            Some(s.(queue := s.queue + [task], accepted := s.accepted + [task], semaphore := s.semaphore + 1,
                    appenders := s.appenders[a := Returned(true)]))
  {
    var l := Append(a);
    var s2 := s1.(appenders := s.appenders[a := Admitted(task)]);
    var s3 := s2.(queue := s.queue + [task], accepted := s.accepted + [task], appenders := s.appenders[a := Pushed]);
    var s4 := s3.(mutex := None, appenders := s.appenders[a := Posting]);
    var s5 := s4.(semaphore := s.semaphore + 1, appenders := s.appenders[a := Returned(true)]);
    Onward(s, l, s1, Times(l, 4));
    Onward(s1, l, s2, Times(l, 3));
    Onward(s2, l, s3, Times(l, 2));
    Onward(s3, l, s4, Times(l, 1));
    Onward(s4, l, s5, Times(l, 0));
  }

  /** A worker alone past the wait, by trylock or, once that has failed, by lock: it takes the front and serves it. */
  lemma WorkAlone(s: Pool, w: nat)
    requires w in s.workers && (s.workers[w].Woken? || s.workers[w].Contending?) && s.mutex.None? && s.queue != []
    ensures Run(s, Times(Work(w), if s.workers[w].Woken? then 4 else 5)) ==
            Some(s.(queue := s.queue[1..], takers := s.takers + [w], executed := s.executed + {|s.takers|},
                    workers := s.workers[w := AtWait]))
  {
    var l := Work(w);
    var locked := s.(mutex := Some(Worker(w)), workers := s.workers[w := Popping]);
    if s.workers[w].Woken? {
      Onward(s, l, locked, Times(l, 3));
    } else {
      var slow := s.(mutex := Some(Worker(w)), workers := s.workers[w := SlowLocked]);
      Onward(s, l, slow, Times(l, 4));
      Onward(slow, l, locked, Times(l, 3));
    }
    Serves(locked, w);
    assert locked.workers[w := AtWait] == s.workers[w := AtWait];
  }

  lemma Serves(s: Pool, w: nat)
    requires w in s.workers && s.workers[w].Popping? && s.queue != []
    ensures Run(s, Times(Work(w), 3)) ==
            Some(s.(queue := s.queue[1..], takers := s.takers + [w], executed := s.executed + {|s.takers|}, mutex := None,
                    workers := s.workers[w := AtWait]))
  {
    var l, i := Work(w), |s.takers|;
    var s1 := s.(queue := s.queue[1..], takers := s.takers + [w], workers := s.workers[w := Holding(i)]);
    var s2 := s1.(mutex := None, workers := s.workers[w := Running(i)]);
    var s3 := s2.(executed := s.executed + {i}, workers := s.workers[w := AtWait]);
    Onward(s, l, s1, Times(l, 2));
    Onward(s1, l, s2, Times(l, 1));
    Onward(s2, l, s3, Times(l, 0));
  }
}
