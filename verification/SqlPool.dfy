/**
 The database connection pool: a list of free connections guarded by a mutex, a semaphore
 that counts them, and two counters. Any number of callers run the scoped holder, that is
 getConnection, some use of the connection, and releaseConnection.
 */
module SqlPool {
  import opened ThreadCounts
  import opened Runs
  import opened Wrappers

  /** A connection, numbered in the order `init` opened it. */
  type Connection = nat

  datatype Pc =
    | Outside
    | Checked                      // saw a non-empty list without the mutex, about to wait
    | Waited                       // past the semaphore wait, about to lock
    | Locked                       // has the mutex, about to take the front
    | Took(con: Connection)        // took it, about to lower m_FreeConn
    | FreeLowered(con: Connection) // about to raise m_CurConn
    | CurRaised(con: Connection)   // about to unlock
    | Using(con: Connection)
    | UsingNull                    // got the null connection
    | Returning(con: Connection)   // in releaseConnection, about to lock
    | ReturnLocked(con: Connection)
    | PutBack                      // appended to the list, about to raise m_FreeConn
    | FreeRaised                   // about to lower m_CurConn
    | CurLowered                   // about to unlock
    | Posting                      // about to post

  datatype Pool = Pool(
    maxConn: nat,
    freeConn: int,
    curConn: int,
    connList: seq<Connection>,
    reserve: nat,
    mutex: Option<nat>,
    callers: map<nat, Pc>)

  // ---------- the steps ----------

  function Goto(s: Pool, t: nat, pc: Pc): Pool { s.(callers := s.callers[t := pc]) }

  function GetStep(s: Pool, t: nat, pc: Pc): Option<Pool> {
    match pc
    case Outside => Some(Goto(s, t, if s.connList == [] then UsingNull else Checked))
    case Checked => if s.reserve > 0 then Some(Goto(s.(reserve := s.reserve - 1), t, Waited)) else None
    case Waited => if s.mutex.None? then Some(Goto(s.(mutex := Some(t)), t, Locked)) else None
    case Locked =>
      if s.connList == [] then None
      else Some(Goto(s.(connList := s.connList[1..]), t, Took(s.connList[0])))
    case Took(con) => Some(Goto(s.(freeConn := s.freeConn - 1), t, FreeLowered(con)))
    case FreeLowered(con) => Some(Goto(s.(curConn := s.curConn + 1), t, CurRaised(con)))
    case CurRaised(con) => Some(Goto(s.(mutex := None), t, Using(con)))
    case _ => None
  }

  function ReleaseStep(s: Pool, t: nat, pc: Pc): Option<Pool> {
    match pc
    case Using(con) => Some(Goto(s, t, Returning(con)))
    case UsingNull => Some(Goto(s, t, Outside))
    case Returning(con) => if s.mutex.None? then Some(Goto(s.(mutex := Some(t)), t, ReturnLocked(con))) else None
    case ReturnLocked(con) => Some(Goto(s.(connList := s.connList + [con]), t, PutBack))
    case PutBack => Some(Goto(s.(freeConn := s.freeConn + 1), t, FreeRaised))
    case FreeRaised => Some(Goto(s.(curConn := s.curConn - 1), t, CurLowered))
    case CurLowered => Some(Goto(s.(mutex := None), t, Posting))
    case Posting => Some(Goto(s.(reserve := s.reserve + 1), t, Outside))
    case _ => None
  }

  predicate InGet(pc: Pc) {
    pc.Outside? || pc.Checked? || pc.Waited? || pc.Locked? || pc.Took? || pc.FreeLowered? || pc.CurRaised?
  }

  /** The next operation of caller `t`; None where it must wait, and for a pop from the empty list. */
  function Step(s: Pool, t: nat): Option<Pool> {
    if t !in s.callers then None
    else if InGet(s.callers[t]) then GetStep(s, t, s.callers[t])
    else ReleaseStep(s, t, s.callers[t])
  }

  ghost predicate Initial(s: Pool) {
    && s.freeConn == s.maxConn && s.curConn == 0 && s.reserve == s.maxConn && s.mutex == None
    && s.connList == seq(s.maxConn, i => i)
    && forall t | t in s.callers :: s.callers[t] == Outside
  }

  /** `connection_pool::init`, for callers that have not started; a negative size opens nothing. */
  method Init(size: int, callers: set<nat>) returns (s: Pool)
    ensures Initial(s) && s.maxConn == (if size < 0 then 0 else size) && s.callers.Keys == callers
  {
    var connList: seq<Connection>, freeConn := [], 0;
    var i := 0;
    while i < size
      invariant 0 <= i && (i <= size || i == 0)
      invariant freeConn == i && connList == seq(i, k => k)
    {
      connList := connList + [i];
      freeConn := freeConn + 1;
      i := i + 1;
    }
    s := Pool(freeConn, freeConn, 0, connList, freeConn, None, map t | t in callers :: Outside);
  }

  ghost predicate Reachable(s: Pool, n: nat)
    decreases n
  {
    if n == 0 then Initial(s)
    else exists r, t :: Reachable(r, n - 1) && Step(r, t) == Some(s)
  }

  // ---------- the invariant ----------

  predicate IsPastWait(pc: Pc) { pc.Waited? || pc.Locked? }

  predicate IsBeforePost(pc: Pc) { pc.PutBack? || pc.FreeRaised? || pc.CurLowered? || pc.Posting? }

  predicate HasMutex(pc: Pc) {
    pc.Locked? || pc.Took? || pc.FreeLowered? || pc.CurRaised? || pc.ReturnLocked? || pc.PutBack? ||
    pc.FreeRaised? || pc.CurLowered?
  }

  /** The caller has `con` in its hands, whatever the list or the counters say. */
  predicate Holds(pc: Pc, con: Connection) {
    (pc.Took? || pc.FreeLowered? || pc.CurRaised? || pc.Using? || pc.Returning? || pc.ReturnLocked?) &&
    pc.con == con
  }

  ghost function PastWait(): Pc -> bool { pc => IsPastWait(pc) }

  ghost function BeforePost(): Pc -> bool { pc => IsBeforePost(pc) }

  ghost function Holding(con: Connection): Pc -> bool { pc => Holds(pc, con) }

  ghost predicate Counted(s: Pool) {
    |s.connList| == s.reserve + |Those(s.callers, PastWait())| + |Those(s.callers, BeforePost())|
  }

  predicate MutexHeld(s: Pool) {
    && (s.mutex.Some? ==> s.mutex.value in s.callers)
    && forall t | t in s.callers :: HasMutex(s.callers[t]) <==> s.mutex == Some(t)
  }

  /** The number of places where a connection is. */
  ghost function Places(s: Pool, con: Connection): nat {
    multiset(s.connList)[con] + |Those(s.callers, Holding(con))|
  }

  ghost predicate Conserved(s: Pool) {
    forall con: Connection :: Places(s, con) == if con < s.maxConn then 1 else 0
  }

  /** What the counters are off by while the mutex holder updates them. */
  function FreeLag(s: Pool): int {
    if s.mutex.Some? && s.mutex.value in s.callers then
      var pc := s.callers[s.mutex.value];
      if pc.Took? then 1 else if pc.PutBack? then -1 else 0
    else 0
  }

  function SumLag(s: Pool): int {
    if s.mutex.Some? && s.mutex.value in s.callers then
      var pc := s.callers[s.mutex.value];
      if pc.FreeLowered? then -1 else if pc.FreeRaised? then 1 else 0
    else 0
  }

  predicate CountersAgree(s: Pool) {
    s.freeConn == |s.connList| + FreeLag(s) && s.freeConn + s.curConn == s.maxConn + SumLag(s)
  }

  ghost predicate Inv(s: Pool) {
    Counted(s) && MutexHeld(s) && Conserved(s) && CountersAgree(s)
  }

  // ---------- the invariant holds ----------

  lemma CountsAfterMove(s: Pool, t: nat, pc: Pc, con: Connection)
    requires t in s.callers
    ensures var after := s.callers[t := pc];
            && |Those(after, PastWait())| ==
               |Those(s.callers, PastWait())| - Bit(IsPastWait(s.callers[t])) + Bit(IsPastWait(pc))
            && |Those(after, BeforePost())| ==
               |Those(s.callers, BeforePost())| - Bit(IsBeforePost(s.callers[t])) + Bit(IsBeforePost(pc))
            && |Those(after, Holding(con))| ==
               |Those(s.callers, Holding(con))| - Bit(Holds(s.callers[t], con)) + Bit(Holds(pc, con))
  {
    CountAfterMove(s.callers, t, pc, PastWait());
    CountAfterMove(s.callers, t, pc, BeforePost());
    CountAfterMove(s.callers, t, pc, Holding(con));
  }

  lemma GetKeepsCounts(s: Pool, t: nat)
    requires Counted(s) && MutexHeld(s) && t in s.callers && GetStep(s, t, s.callers[t]).Some?
    ensures var u := GetStep(s, t, s.callers[t]).value;
            Counted(u) && MutexHeld(u)
  {
    CountsAfterMove(s, t, GetStep(s, t, s.callers[t]).value.callers[t], 0);
  }

  lemma ReleaseKeepsCounts(s: Pool, t: nat)
    requires Counted(s) && MutexHeld(s) && t in s.callers && ReleaseStep(s, t, s.callers[t]).Some?
    ensures var u := ReleaseStep(s, t, s.callers[t]).value;
            Counted(u) && MutexHeld(u)
  {
    CountsAfterMove(s, t, ReleaseStep(s, t, s.callers[t]).value.callers[t], 0);
  }

  lemma GetKeepsCounters(s: Pool, t: nat)
    requires MutexHeld(s) && CountersAgree(s) && t in s.callers && GetStep(s, t, s.callers[t]).Some?
    ensures CountersAgree(GetStep(s, t, s.callers[t]).value)
  {
  }

  lemma ReleaseKeepsCounters(s: Pool, t: nat)
    requires MutexHeld(s) && CountersAgree(s) && t in s.callers && ReleaseStep(s, t, s.callers[t]).Some?
    ensures CountersAgree(ReleaseStep(s, t, s.callers[t]).value)
  {
  }

  lemma GetMovesOne(s: Pool, t: nat, con: Connection)
    requires t in s.callers && GetStep(s, t, s.callers[t]).Some?
    ensures Places(GetStep(s, t, s.callers[t]).value, con) == Places(s, con)
  {
    CountsAfterMove(s, t, GetStep(s, t, s.callers[t]).value.callers[t], con);
    assert s.connList != [] ==> s.connList == [s.connList[0]] + s.connList[1..];
  }

  lemma ReleaseMovesOne(s: Pool, t: nat, con: Connection)
    requires t in s.callers && ReleaseStep(s, t, s.callers[t]).Some?
    ensures Places(ReleaseStep(s, t, s.callers[t]).value, con) == Places(s, con)
  {
    CountsAfterMove(s, t, ReleaseStep(s, t, s.callers[t]).value.callers[t], con);
  }

  lemma StepMaxConn(s: Pool, t: nat)
    requires Step(s, t).Some?
    ensures Step(s, t).value.maxConn == s.maxConn
  {
  }

  lemma StepKeeps(s: Pool, t: nat)
    requires Inv(s) && Step(s, t).Some?
    ensures Inv(Step(s, t).value)
  {
    StepMaxConn(s, t);
    if InGet(s.callers[t]) {
      GetKeepsCounts(s, t); GetKeepsCounters(s, t);
      forall con { GetMovesOne(s, t, con); }
    } else {
      ReleaseKeepsCounts(s, t); ReleaseKeepsCounters(s, t);
      forall con { ReleaseMovesOne(s, t, con); }
    }
  }

  lemma {:induction false} NumbersOnce(n: nat, con: Connection)
    ensures multiset(seq(n, i => i))[con] == if con < n then 1 else 0
  {
    if n > 0 {
      assert seq(n, i => i) == seq(n - 1, i => i) + [n - 1];
      NumbersOnce(n - 1, con);
    }
  }

  lemma InitialInv(s: Pool)
    requires Initial(s)
    ensures Inv(s)
  {
    assert Those(s.callers, PastWait()) == {} && Those(s.callers, BeforePost()) == {};
    forall con: Connection ensures Places(s, con) == if con < s.maxConn then 1 else 0 {
      NumbersOnce(s.maxConn, con);
      assert Those(s.callers, Holding(con)) == {};
    }
  }

  lemma {:induction false} ReachableInv(s: Pool, n: nat)
    requires Reachable(s, n)
    ensures Inv(s)
    decreases n
  {
    if n == 0 {
      InitialInv(s);
    } else {
      var r, t :| Reachable(r, n - 1) && Step(r, t) == Some(s);
      ReachableInv(r, n - 1);
      StepKeeps(r, t);
    }
  }

  // ---------- what it means ----------

  /**
   Main result: in every reachable state a connection is in the list once and in no hand, or
   in one hand and not in the list; the counters agree with the list, and with each other
   whenever the mutex is free.
   */
  lemma Conservation(s: Pool, n: nat, con: Connection)
    requires Reachable(s, n) && con < s.maxConn
    ensures con in s.connList <==> !exists t :: t in s.callers && Holds(s.callers[t], con)
    ensures multiset(s.connList)[con] <= 1
    ensures forall t, u | t in s.callers && u in s.callers &&
                          Holds(s.callers[t], con) && Holds(s.callers[u], con) :: t == u
    ensures s.mutex.None? ==> s.freeConn == |s.connList| && s.freeConn + s.curConn == s.maxConn
  {
    ReachableInv(s, n);
    assert Places(s, con) == 1;
    forall t, u | t in s.callers && u in s.callers && Holds(s.callers[t], con) && Holds(s.callers[u], con)
      ensures t == u
    {
      if t != u { CountPair(s.callers, t, u, Holding(con)); }
    }
    if t :| t in s.callers && Holds(s.callers[t], con) {
      CountPositive(s.callers, t, Holding(con));
    } else {
      assert Those(s.callers, Holding(con)) == {};
    }
  }

  /** Main result: past the semaphore the list is never empty, though it was tested without the mutex. */
  lemma TakeFindsConnection(s: Pool, n: nat, t: nat)
    requires Reachable(s, n) && t in s.callers && s.callers[t].Locked?
    ensures Step(s, t).Some? && Step(s, t).value.callers[t] == Took(s.connList[0])
  {
    ReachableInv(s, n);
    CountPositive(s.callers, t, PastWait());
  }

  /** The operations of the callers `ts`, one after the other. */
  function Run(s: Pool, ts: seq<nat>): Option<Pool> { RunOf(Step, s, ts) }

  /** `k` operations of caller `t`. */
  function Turns(t: nat, k: nat): seq<nat> { if k == 0 then [] else [t] + Turns(t, k - 1) }

  lemma Turn(s: Pool, t: nat, k: nat, u: Pool)
    requires k > 0 && Step(s, t).Some? && Step(s, t).value.callers == u.callers
    requires Step(s, t).value == u.(callers := Step(s, t).value.callers)
    ensures Run(s, Turns(t, k)) == Run(u, Turns(t, k - 1))
  {
    RunOfFirst(Step, s, t, u, Turns(t, k - 1));
  }

  /** With the semaphore at zero the second operation is a wait. */
  lemma GetBlocks(s: Pool, t: nat)
    requires t in s.callers && s.callers[t].Outside? && s.connList != [] && s.reserve == 0
    ensures Run(s, Turns(t, 7)).None?
  {
    var u := Goto(s, t, Checked);
    Turn(s, t, 7, u);
    assert Turns(t, 6)[0] == t && Step(u, t).None?;
  }

  /** The test, the semaphore and the mutex. */
  lemma GetEnters(s: Pool, t: nat)
    requires t in s.callers && s.callers[t].Outside? && s.connList != [] && s.reserve > 0 && s.mutex.None?
    ensures Run(s, Turns(t, 7)) ==
            Run(s.(reserve := s.reserve - 1, mutex := Some(t), callers := s.callers[t := Locked]), Turns(t, 4))
  {
    var s1 := Goto(s, t, Checked);
    var s2 := s.(reserve := s.reserve - 1, callers := s.callers[t := Waited]);
    var s3 := s2.(mutex := Some(t), callers := s.callers[t := Locked]);
    Turn(s, t, 7, s1);
    Turn(s1, t, 6, s2);
    Turn(s2, t, 5, s3);
  }

  /** The front, the counters and the mutex. */
  lemma GetTakesFront(s: Pool, t: nat)
    requires t in s.callers && s.callers[t].Locked? && s.connList != []
    ensures Run(s, Turns(t, 4)) ==
            Some(s.(connList := s.connList[1..], freeConn := s.freeConn - 1, curConn := s.curConn + 1,
                    mutex := None, callers := s.callers[t := Using(s.connList[0])]))
  {
    var con := s.connList[0];
    var s1 := s.(connList := s.connList[1..], callers := s.callers[t := Took(con)]);
    var s2 := s1.(freeConn := s.freeConn - 1, callers := s.callers[t := FreeLowered(con)]);
    var s3 := s2.(curConn := s.curConn + 1, callers := s.callers[t := CurRaised(con)]);
    var s4 := s3.(mutex := None, callers := s.callers[t := Using(con)]);
    Turn(s, t, 4, s1);
    Turn(s1, t, 3, s2);
    Turn(s2, t, 2, s3);
    Turn(s3, t, 1, s4);
  }

  /**
   Main result on getConnection: with connections in the list and the mutex free, a caller left
   alone gets the oldest one if and only if the semaphore has a unit, and otherwise waits.
   */
  lemma GetAlone(s: Pool, t: nat)
    requires t in s.callers && s.callers[t].Outside? && s.connList != [] && s.mutex.None?
    ensures Run(s, Turns(t, 7)).Some? <==> s.reserve > 0
    ensures s.reserve > 0 ==>
              Run(s, Turns(t, 7)) ==
              Some(s.(connList := s.connList[1..], freeConn := s.freeConn - 1, curConn := s.curConn + 1,
                      reserve := s.reserve - 1, callers := s.callers[t := Using(s.connList[0])]))
  {
    if s.reserve > 0 {
      var inside := s.(reserve := s.reserve - 1, mutex := Some(t), callers := s.callers[t := Locked]);
      GetEnters(s, t);
      GetTakesFront(inside, t);
      assert inside.callers[t := Using(s.connList[0])] == s.callers[t := Using(s.connList[0])];
    } else {
      GetBlocks(s, t);
    }
  }

  /** The mutex, the list and the counters. */
  lemma ReleasePutsBack(s: Pool, t: nat)
    requires t in s.callers && s.callers[t].Using? && s.mutex.None?
    ensures Run(s, Turns(t, 7)) ==
            Run(s.(connList := s.connList + [s.callers[t].con], freeConn := s.freeConn + 1, mutex := Some(t),
                   callers := s.callers[t := FreeRaised]), Turns(t, 3))
  {
    var con := s.callers[t].con;
    var s1 := Goto(s, t, Returning(con));
    var s2 := s.(mutex := Some(t), callers := s.callers[t := ReturnLocked(con)]);
    var s3 := s2.(connList := s.connList + [con], callers := s.callers[t := PutBack]);
    var s4 := s3.(freeConn := s.freeConn + 1, callers := s.callers[t := FreeRaised]);
    Turn(s, t, 7, s1);
    Turn(s1, t, 6, s2);
    Turn(s2, t, 5, s3);
    Turn(s3, t, 4, s4);
  }

  /** The other counter, the mutex and the semaphore. */
  lemma ReleaseLeaves(s: Pool, t: nat)
    requires t in s.callers && s.callers[t].FreeRaised?
    ensures Run(s, Turns(t, 3)) ==
            Some(s.(curConn := s.curConn - 1, mutex := None, reserve := s.reserve + 1, callers := s.callers[t := Outside]))
  {
    var s1 := s.(curConn := s.curConn - 1, callers := s.callers[t := CurLowered]);
    var s2 := s1.(mutex := None, callers := s.callers[t := Posting]);
    var s3 := s2.(reserve := s.reserve + 1, callers := s.callers[t := Outside]);
    Turn(s, t, 3, s1);
    Turn(s1, t, 2, s2);
    Turn(s2, t, 1, s3);
  }

  /** releaseConnection: the connection goes to the end of the list, and the semaphore gets its unit back. */
  lemma ReleaseAlone(s: Pool, t: nat)
    requires t in s.callers && s.callers[t].Using? && s.mutex.None?
    ensures Run(s, Turns(t, 7)) ==
            Some(s.(connList := s.connList + [s.callers[t].con], freeConn := s.freeConn + 1, curConn := s.curConn - 1,
                    reserve := s.reserve + 1, callers := s.callers[t := Outside]))
  {
    var inside := s.(connList := s.connList + [s.callers[t].con], freeConn := s.freeConn + 1, mutex := Some(t),
                     callers := s.callers[t := FreeRaised]);
    ReleasePutsBack(s, t);
    ReleaseLeaves(inside, t);
    assert inside.callers[t := Outside] == s.callers[t := Outside];
  }

  /** In any run, whoever has got null found the list empty when it tested. */
  lemma NullExactly(s: Pool, w: nat, t: nat)
    requires Step(s, w).Some? && t in s.callers
    ensures var u := Step(s, w).value;
            && t in u.callers
            && (u.callers[t].UsingNull? <==>
                  if w == t then s.callers[t].Outside? && s.connList == [] else s.callers[t].UsingNull?)
  {
  }

  /** Whoever has seen a connection in the list is in a pool that has some. */
  lemma {:induction false} CheckedMeansSome(s: Pool, n: nat, t: nat)
    requires Reachable(s, n) && t in s.callers && s.callers[t].Checked?
    ensures s.maxConn > 0
    decreases n
  {
    if n > 0 {
      var r, w :| Reachable(r, n - 1) && Step(r, w) == Some(s);
      StepMaxConn(r, w);
      if r.callers[t].Checked? {
        CheckedMeansSome(r, n - 1, t);
      } else {
        ReachableInv(r, n - 1);
        assert r.connList[0] in r.connList && Places(r, r.connList[0]) > 0;
      }
    }
  }

  /** A caller that cannot go on waits for the mutex or for the semaphore. */
  lemma StuckAreWaiting(s: Pool, n: nat)
    requires Reachable(s, n) && forall t | t in s.callers :: Step(s, t).None?
    ensures s.mutex.None? && forall t | t in s.callers :: s.callers[t].Checked? && s.reserve == 0
  {
    ReachableInv(s, n);
    if s.mutex.Some? {
      var h := s.mutex.value;
      assert Step(s, h).None? && HasMutex(s.callers[h]);
      if s.callers[h].Locked? { TakeFindsConnection(s, n, h); }
    }
    forall t | t in s.callers ensures s.callers[t].Checked? && s.reserve == 0 {
      assert Step(s, t).None? && !HasMutex(s.callers[t]);
    }
  }

  /** With the list empty and nothing in anybody's hands there is no connection. */
  lemma NoneAnywhere(s: Pool)
    requires Conserved(s) && s.connList == [] && forall t | t in s.callers :: s.callers[t].Checked?
    ensures s.maxConn == 0
  {
    assert Those(s.callers, Holding(0)) == {};
    assert Places(s, 0) == 0;
  }

  /** Main result on waiting: the callers never all wait; whoever uses a connection can give it back. */
  lemma SomebodyCanGoOn(s: Pool, n: nat)
    requires Reachable(s, n) && s.callers != map[]
    ensures exists t :: t in s.callers && Step(s, t).Some?
  {
    if forall t | t in s.callers :: Step(s, t).None? {
      var t :| t in s.callers;
      StuckAreWaiting(s, n);
      ReachableInv(s, n);
      assert Those(s.callers, PastWait()) == {} && Those(s.callers, BeforePost()) == {};
      NoneAnywhere(s);
      CheckedMeansSome(s, n, t);
    }
  }

  /** Where caller `t` stands is nothing to another caller. */
  lemma StepBeside(s: Pool, t: nat, pc: Pc, w: nat)
    requires t in s.callers && w != t && Step(s, w).Some?
    ensures Step(Goto(s, t, pc), w) == Some(Goto(Step(s, w).value, t, pc))
    ensures t in Step(s, w).value.callers && Step(s, w).value.callers[t] == s.callers[t]
  {
    var pw := Step(s, w).value.callers[w];
    assert s.callers[t := pc][w := pw] == s.callers[w := pw][t := pc];
  }

  lemma {:induction false} RunBeside(s: Pool, t: nat, pc: Pc, ts: seq<nat>)
    requires t in s.callers && t !in ts && Run(s, ts).Some?
    ensures Run(Goto(s, t, pc), ts) == Some(Goto(Run(s, ts).value, t, pc))
    ensures t in Run(s, ts).value.callers && Run(s, ts).value.callers[t] == s.callers[t]
    decreases |ts|
  {
    if ts != [] {
      StepBeside(s, t, pc, ts[0]);
      RunBeside(Step(s, ts[0]).value, t, pc, ts[1..]);
    }
  }

  /**
   A scoped holder that got null changes nothing: whatever other callers do between its test
   and its release, the pool is then as if it had not been there.
   */
  lemma NullHolderChangesNothing(s: Pool, t: nat, ts: seq<nat>)
    requires t in s.callers && s.callers[t] == Outside && s.connList == []
    requires t !in ts && Run(s, ts).Some?
    ensures Step(s, t) == Some(Goto(s, t, UsingNull))
    ensures Run(Goto(s, t, UsingNull), ts).Some?
    ensures Step(Run(Goto(s, t, UsingNull), ts).value, t) == Run(s, ts)
  {
    RunBeside(s, t, UsingNull, ts);
    var v := Run(s, ts).value;
    assert v.callers[t := UsingNull][t := Outside] == v.callers;
  }
}
