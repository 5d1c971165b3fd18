/**
 The count of users, which main and the workers update without a lock: every update is a load
 and a store. Main's updates go with its changes of the timer list; a worker's, in close_conn,
 leaves the list as it is.
 */
module UserCount {
  import opened TimerRuns
  import opened Runs
  import opened Wrappers

  /** An update of main between its load and its store: what it is for, and the value loaded. */
  datatype Pending = Pending(op: Op, value: int)

  /** `loaded` are the values of the workers between load and store; `closes` counts their stores. */
  datatype State = State(
    server: Server,
    count: int,
    main: Option<Pending>,
    loaded: map<nat, int>,
    closes: nat)

  datatype Label =
    | MainLoad(op: Op) | MainStore | MainOnly(op: Op)
    | WorkerOnly(fd: nat) | WorkerLoad(w: nat) | WorkerStore(w: nat)

  /** What an operation of main adds to the count. */
  function Delta(op: Op): int {
    match op
    case Accept(_, _, _) => 1
    case Remove(_) => -1
    case ExpireFirst(_) => -1
    case _ => 0
  }

  /** The list is main's alone, so its change is put into the step of the store. */
  function MainStep(s: State, l: Label): Option<State> {
    match l
    case MainLoad(op) =>
      if s.main.None? && Delta(op) != 0 && TimerRuns.Step(s.server, op).Some? then
        Some(s.(main := Some(Pending(op, s.count)))) else None
    case MainStore =>
      if s.main.None? then None
      else
        var p := s.main.value;
        (match TimerRuns.Step(s.server, p.op)
         case None => None
         case Some(t) => Some(s.(server := t, count := p.value + Delta(p.op), main := None)))
    case MainOnly(op) =>
      if s.main.None? && op.Adjust? then
        (match TimerRuns.Step(s.server, op)
         case None => None
         case Some(t) => Some(s.(server := t)))
      else None
    case _ => None
  }

  /** A worker closes the descriptor, and later takes one off the count. */
  function Step(s: State, l: Label): Option<State> {
    match l
    case WorkerOnly(fd) =>
      (match TimerRuns.Step(s.server, WorkerClose(fd))
       case None => None
       case Some(t) => Some(s.(server := t)))
    case WorkerLoad(w) => if w in s.loaded then None else Some(s.(loaded := s.loaded[w := s.count]))
    case WorkerStore(w) =>
      if w !in s.loaded then None
      else Some(s.(count := s.loaded[w] - 1, loaded := s.loaded - {w}, closes := s.closes + 1))
    case _ => MainStep(s, l)
  }

  function Run(s: State, ls: seq<Label>): Option<State> { RunOf(Step, s, ls) }

  /** Every timer is counted, but for the connections that workers have closed. */
  predicate Accounts(s: State) { s.count + s.closes == |s.server.list| }

  /** A store that finds the count as its load found it. */
  predicate FindsAsLoaded(s: State, l: Label) {
    && (l.MainStore? && s.main.Some? ==> s.main.value.value == s.count)
    && (l.WorkerStore? && l.w in s.loaded ==> s.loaded[l.w] == s.count)
  }

  lemma ListChanges(s: Server, op: Op)
    requires TimerRuns.Step(s, op).Some?
    ensures |TimerRuns.Step(s, op).value.list| == |s.list| + Delta(op)
  {
  }

  /**
   Main result, one step: the count goes on accounting for the timers if and only if a store
   finds it as its load did, that is, unless the stores of others in between changed it.
   */
  lemma StoreKeepsExactly(s: State, l: Label)
    requires Accounts(s) && Step(s, l).Some?
    ensures Accounts(Step(s, l).value) <==> FindsAsLoaded(s, l)
  {
    if l.MainStore? { ListChanges(s.server, s.main.value.op); }
    if l.MainOnly? { ListChanges(s.server, l.op); }
    if l.WorkerOnly? { ListChanges(s.server, WorkerClose(l.fd)); }
  }

  // ---------- whole runs ----------

  predicate AccountsThroughout(s: State, ls: seq<Label>)
    decreases |ls|
  {
    Accounts(s) && (ls != [] && Step(s, ls[0]).Some? ==> AccountsThroughout(Step(s, ls[0]).value, ls[1..]))
  }

  predicate StoresFindAsLoaded(s: State, ls: seq<Label>)
    decreases |ls|
  {
    ls != [] ==>
      FindsAsLoaded(s, ls[0]) && (Step(s, ls[0]).Some? ==> StoresFindAsLoaded(Step(s, ls[0]).value, ls[1..]))
  }

  /** Main result: over a whole run the count accounts at every point if and only if every store does so. */
  lemma {:induction false} AccountsExactly(s: State, ls: seq<Label>)
    requires Accounts(s) && Run(s, ls).Some?
    ensures AccountsThroughout(s, ls) <==> StoresFindAsLoaded(s, ls)
    decreases |ls|
  {
    if ls != [] {
      StoreKeepsExactly(s, ls[0]);
      var t := Step(s, ls[0]).value;
      if FindsAsLoaded(s, ls[0]) {
        AccountsExactly(t, ls[1..]);
      } else {
        assert !AccountsThroughout(t, ls[1..]);
      }
    }
  }

  /** Nobody else is between load and store when this store happens. */
  predicate Alone(s: State, l: Label) {
    && (l.MainStore? ==> s.loaded == map[])
    && (l.WorkerStore? ==> s.main.None? && s.loaded.Keys <= {l.w})
  }

  predicate StoresAlone(s: State, ls: seq<Label>)
    decreases |ls|
  {
    ls != [] ==> Alone(s, ls[0]) && (Step(s, ls[0]).Some? ==> StoresAlone(Step(s, ls[0]).value, ls[1..]))
  }

  /** All values loaded and not yet used are up to date. */
  predicate UpToDate(s: State) {
    (s.main.Some? ==> s.main.value.value == s.count) && forall w | w in s.loaded :: s.loaded[w] == s.count
  }

  /** In particular it does when no other store falls between a load and its store. */
  lemma {:induction false} AloneSuffices(s: State, ls: seq<Label>)
    requires UpToDate(s) && Run(s, ls).Some? && StoresAlone(s, ls)
    ensures StoresFindAsLoaded(s, ls)
    decreases |ls|
  {
    if ls != [] {
      AloneSuffices(Step(s, ls[0]).value, ls[1..]);
    }
  }

  /** The empty server, with nobody between load and store. */
  const NO_USERS := State(EMPTY_SERVER, 0, None, map[], 0)

  lemma AccountsFromStart(ls: seq<Label>)
    requires Run(NO_USERS, ls).Some? && StoresFindAsLoaded(NO_USERS, ls)
    ensures Accounts(Run(NO_USERS, ls).value)
  {
    AccountsExactly(NO_USERS, ls);
    AccountsAtEnd(NO_USERS, ls);
  }

  lemma {:induction false} AccountsAtEnd(s: State, ls: seq<Label>)
    requires AccountsThroughout(s, ls) && Run(s, ls).Some?
    ensures Accounts(Run(s, ls).value)
    decreases |ls|
  {
    if ls != [] { AccountsAtEnd(Step(s, ls[0]).value, ls[1..]); }
  }

  // ---------- a lost update ----------

  /** One descriptor is accepted. */
  function OneUser(): Server {
    var e := Entry(0, 5, 15, 0);
    Server([e], map[0 := e], map[5 := 0], {5}, {5}, 1)
  }

  lemma AcceptOne()
    ensures Run(NO_USERS, [MainLoad(Accept(5, 0, 15)), MainStore]) == Some(State(OneUser(), 1, None, map[], 0))
  {
    var op := Accept(5, 0, 15);
    assert Insert([], Entry(0, 5, 15, 0)) == [Entry(0, 5, 15, 0)];
    assert EMPTY_SERVER.open + {5} == {5} && EMPTY_SERVER.watched + {5} == {5};
    var s := State(EMPTY_SERVER, 0, Some(Pending(op, 0)), map[], 0);
    assert Step(NO_USERS, MainLoad(op)) == Some(s);
    assert Step(s, MainStore) == Some(State(OneUser(), 1, None, map[], 0));
    assert [MainLoad(op), MainStore][1..] == [MainStore] && [MainStore][1..] == [];
    assert Run(s, [MainStore]) == Step(s, MainStore);
  }

  /** The five steps of the race. */
  function Race(): seq<Label> { [WorkerOnly(5), WorkerLoad(0), MainLoad(Accept(6, 1, 20)), MainStore, WorkerStore(0)] }

  lemma RaceRuns(s: State, closed: Server, accepted: Server)
    requires s.main.None? && s.loaded == map[]
    requires TimerRuns.Step(s.server, WorkerClose(5)) == Some(closed)
    requires TimerRuns.Step(closed, Accept(6, 1, 20)) == Some(accepted)
    ensures Run(s, Race()) == Some(State(accepted, s.count - 1, None, map[], s.closes + 1))
  {
    var op, n := Accept(6, 1, 20), s.count;
    var s1 := State(closed, n, None, map[], s.closes);
    var s2 := State(closed, n, None, map[0 := n], s.closes);
    var s3 := State(closed, n, Some(Pending(op, n)), map[0 := n], s.closes);
    var s4 := State(accepted, n + 1, None, map[0 := n], s.closes);
    var s5 := State(accepted, n - 1, None, map[], s.closes + 1);
    assert map[0 := n] - {0} == map[];
    RunOfFirst(Step, s, WorkerOnly(5), s1, [WorkerLoad(0), MainLoad(op), MainStore, WorkerStore(0)]);
    RunOfFirst(Step, s1, WorkerLoad(0), s2, [MainLoad(op), MainStore, WorkerStore(0)]);
    RunOfFirst(Step, s2, MainLoad(op), s3, [MainStore, WorkerStore(0)]);
    RunOfFirst(Step, s3, MainStore, s4, [WorkerStore(0)]);
    RunOfFirst(Step, s4, WorkerStore(0), s5, []);
    assert [WorkerStore(0)] + [] == [WorkerStore(0)];
  }

  /**
   A worker closes the only connection and loads one, main accepts another and stores two, and
   the worker stores zero: two timers, one close, and a count of none.
   */
  lemma UpdateIsLost()
    ensures exists ls :: Run(NO_USERS, ls).Some? && var s := Run(NO_USERS, ls).value;
              |s.server.list| == 2 && s.closes == 1 && s.count == 0 && !Accounts(s)
  {
    var first := [MainLoad(Accept(5, 0, 15)), MainStore];
    var s := State(OneUser(), 1, None, map[], 0);
    AcceptOne();
    var closed := TimerRuns.Step(OneUser(), WorkerClose(5)).value;
    assert 6 !in closed.open && 1 !in closed.live;
    var accepted := TimerRuns.Step(closed, Accept(6, 1, 20)).value;
    ListChanges(closed, Accept(6, 1, 20));
    RaceRuns(s, closed, accepted);
    RunOfMore(Step, NO_USERS, first, Race());
    assert Run(NO_USERS, first + Race()).Some?;
  }
}
