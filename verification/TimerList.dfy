/**
 The list of connection timers, sorted by expiry: a doubly linked list with head and tail.
 `nodes` is the sequence of its nodes; positions in it are given by the keys alone.
 */
module TimerList {

  /** Where a stable insertion puts key `e`: before the first greater key. */
  function InsertPos(keys: seq<int>, e: int): (p: nat)
    ensures p <= |keys|
    ensures forall i | 0 <= i < p :: keys[i] <= e
    ensures p < |keys| ==> keys[p] > e
  {
    if keys == [] || keys[0] > e then 0 else 1 + InsertPos(keys[1..], e)
  }

  function InsertAt<T>(s: seq<T>, p: nat, x: T): seq<T>
    requires p <= |s|
  {
    s[..p] + [x] + s[p..]
  }

  function RemoveAt<T>(s: seq<T>, i: nat): seq<T>
    requires i < |s|
  {
    s[..i] + s[i + 1..]
  }

  predicate Ascending(keys: seq<int>) {
    forall i, j | 0 <= i < j < |keys| :: keys[i] <= keys[j]
  }

  /** In an ascending sequence the position is the only one with these two properties. */
  lemma InsertPosUnique(keys: seq<int>, e: int, p: nat)
    requires p <= |keys| && Ascending(keys)
    requires p > 0 ==> keys[p - 1] <= e
    requires p < |keys| ==> keys[p] > e
    ensures InsertPos(keys, e) == p
  {
  }

  lemma InsertKeepsAscending(keys: seq<int>, e: int)
    requires Ascending(keys)
    ensures Ascending(InsertAt(keys, InsertPos(keys, e), e))
  {
    var p := InsertPos(keys, e);
    forall i, j | 0 <= i < j < |keys| + 1
      ensures InsertAt(keys, p, e)[i] <= InsertAt(keys, p, e)[j]
    {
      if i == p { assert keys[p] <= keys[j - 1]; }
    }
  }

  lemma RemoveKeepsAscending(keys: seq<int>, i: nat)
    requires Ascending(keys) && i < |keys|
    ensures Ascending(RemoveAt(keys, i))
  {
  }

  lemma InsertRemoved<T>(s: seq<T>, i: nat)
    requires i < |s|
    ensures InsertAt(RemoveAt(s, i), i, s[i]) == s
  {
  }

  /** The key at `i` does not have to move up. */
  predicate Stays(keys: seq<int>, i: nat, e: int)
    requires i < |keys|
  {
    i + 1 == |keys| || e < keys[i + 1]
  }

  /** The key at `i` was not lowered below the one before it. */
  predicate NotBelow(keys: seq<int>, i: nat, e: int)
    requires i < |keys|
  {
    i == 0 || keys[i - 1] <= e
  }

  lemma Neighbours(keys: seq<int>, i: nat)
    requires i < |keys|
    ensures i > 0 ==> RemoveAt(keys, i)[i - 1] == keys[i - 1]
    ensures i + 1 < |keys| ==> RemoveAt(keys, i)[i] == keys[i + 1]
  {
  }

  lemma StaysInPlace(keys: seq<int>, i: nat, e: int)
    requires i < |keys| && Ascending(RemoveAt(keys, i)) && Stays(keys, i, e) && NotBelow(keys, i, e)
    ensures InsertPos(RemoveAt(keys, i), e) == i && InsertAt(RemoveAt(keys, i), i, e) == keys[i := e]
    ensures Ascending(keys[i := e])
  {
    var rest := RemoveAt(keys, i);
    Neighbours(keys, i);
    InsertPosUnique(rest, e, i);
    assert InsertAt(rest, i, e) == keys[i := e] by { InsertReplaced(keys, i, e); }
    InsertKeepsAscending(rest, e);
  }

  lemma InsertReplaced(keys: seq<int>, i: nat, e: int)
    requires i < |keys|
    ensures InsertAt(RemoveAt(keys, i), i, e) == keys[i := e]
  {
  }

  /** Key `i` has become `e`: leaving it in place sorts exactly when it is not below its predecessor. */
  lemma AdjustPosition(keys: seq<int>, i: nat, e: int)
    requires i < |keys| && Ascending(RemoveAt(keys, i))
    ensures !Stays(keys, i, e) ==> NotBelow(keys, i, e) && RemoveAt(keys, i)[i] <= e
    ensures Stays(keys, i, e) ==> (Ascending(keys[i := e]) <==> NotBelow(keys, i, e))
    ensures Stays(keys, i, e) && NotBelow(keys, i, e) ==>
              InsertPos(RemoveAt(keys, i), e) == i && InsertAt(RemoveAt(keys, i), i, e) == keys[i := e]
  {
    Neighbours(keys, i);
    if i > 0 && keys[i - 1] > e {
      assert keys[i := e][i - 1] > keys[i := e][i];
      assert i + 1 < |keys| ==> RemoveAt(keys, i)[i - 1] <= RemoveAt(keys, i)[i];
    } else if Stays(keys, i, e) {
      StaysInPlace(keys, i, e);
    }
  }

  class Timer {
    var expire: int
    const user: nat
    var prev: Timer?
    var next: Timer?
    var freed: bool  // what `delete` leaves behind

    constructor (user: nat, expire: int)
      ensures this.user == user && this.expire == expire && prev == null && next == null && !freed
    {
      this.user, this.expire := user, expire;
      prev, next, freed := null, null, false;
    }
  }

  // ---------- chains of nodes ----------

  predicate Distinct(ns: seq<Timer>) {
    forall i, j | 0 <= i < j < |ns| :: ns[i] != ns[j]
  }

  function Succ(ns: seq<Timer>, i: int): Timer?
    requires 0 <= i < |ns|
  {
    if i + 1 < |ns| then ns[i + 1] else null
  }

  function Pred(ns: seq<Timer>, i: int): Timer?
    requires 0 <= i < |ns|
  {
    if i > 0 then ns[i - 1] else null
  }

  /** Every node but possibly the one at `k` points to its successor. */
  predicate ForwardBut(ns: seq<Timer>, k: int)
    reads ns
  {
    forall i {:trigger ns[i].next} | 0 <= i < |ns| && i != k :: ns[i].next == Succ(ns, i)
  }

  /** Every node but possibly the one at `k` points to its predecessor. */
  predicate BackwardBut(ns: seq<Timer>, k: int)
    reads ns
  {
    forall i {:trigger ns[i].prev} | 0 <= i < |ns| && i != k :: ns[i].prev == Pred(ns, i)
  }

  /** The nodes are linked in this order in both directions, and none is deleted. */
  predicate Chain(ns: seq<Timer>)
    reads ns
  {
    Distinct(ns) && ForwardBut(ns, -1) && BackwardBut(ns, -1) && forall n | n in ns :: !n.freed
  }

  predicate Keyed(ns: seq<Timer>, keys: seq<int>)
    reads ns
  {
    |keys| == |ns| && forall i | 0 <= i < |ns| :: keys[i] == ns[i].expire
  }

  lemma InsertForward(ns: seq<Timer>, p: nat, x: Timer)
    requires p <= |ns| && ForwardBut(ns, p - 1)
    requires x.next == (if p < |ns| then ns[p] else null) && (p > 0 ==> ns[p - 1].next == x)
    ensures ForwardBut(InsertAt(ns, p, x), -1)
  {
    var r := InsertAt(ns, p, x);
    forall i | 0 <= i < |r| ensures r[i].next == Succ(r, i) {
      if i < p { assert r[i] == ns[i]; } else if i > p { assert r[i] == ns[i - 1]; }
    }
  }

  lemma InsertBackward(ns: seq<Timer>, p: nat, x: Timer)
    requires p <= |ns| && BackwardBut(ns, p)
    requires x.prev == (if p > 0 then ns[p - 1] else null) && (p < |ns| ==> ns[p].prev == x)
    ensures BackwardBut(InsertAt(ns, p, x), -1)
  {
    var r := InsertAt(ns, p, x);
    forall i | 0 <= i < |r| ensures r[i].prev == Pred(r, i) {
      if i < p { assert r[i] == ns[i]; } else if i > p { assert r[i] == ns[i - 1]; }
    }
  }

  /** Linking `x` in at position `p` makes a chain of the longer sequence. */
  lemma InsertChain(ns: seq<Timer>, p: nat, x: Timer)
    requires Distinct(ns) && x !in ns && p <= |ns| && ForwardBut(ns, p - 1) && BackwardBut(ns, p)
    requires x.next == (if p < |ns| then ns[p] else null) && (p > 0 ==> ns[p - 1].next == x)
    requires x.prev == (if p > 0 then ns[p - 1] else null) && (p < |ns| ==> ns[p].prev == x)
    requires !x.freed && forall n | n in ns :: !n.freed
    ensures Chain(InsertAt(ns, p, x))
    ensures InsertAt(ns, p, x)[0] == (if p == 0 then x else ns[0])
    ensures InsertAt(ns, p, x)[|ns|] == (if p == |ns| then x else ns[|ns| - 1])
  {
    InsertForward(ns, p, x);
    InsertBackward(ns, p, x);
  }

  lemma InsertKeyed(ns: seq<Timer>, keys: seq<int>, p: nat, x: Timer)
    requires Keyed(ns, keys) && p <= |ns|
    ensures Keyed(InsertAt(ns, p, x), InsertAt(keys, p, x.expire))
  {
  }

  /** The neighbours of position `i` point past it, and it is the only node that may be deleted. */
  predicate Bypassed(ns: seq<Timer>, i: int)
    requires 0 <= i < |ns|
    reads ns
  {
    && Distinct(ns) && ForwardBut(ns, i - 1) && BackwardBut(ns, i + 1)
    && (i > 0 ==> ns[i - 1].next == Succ(ns, i))
    && (i + 1 < |ns| ==> ns[i + 1].prev == Pred(ns, i))
    && forall n | n in ns && n != ns[i] :: !n.freed
  }

  /** What is left when the node at position `i` is bypassed is a chain. */
  lemma RemoveChain(ns: seq<Timer>, i: nat)
    requires i < |ns| && Bypassed(ns, i)
    ensures Chain(RemoveAt(ns, i))
  {
    var r := RemoveAt(ns, i);
    forall j | 0 <= j < |r| ensures r[j].next == Succ(r, j) && r[j].prev == Pred(r, j) {
      if j < i { assert r[j] == ns[j]; } else { assert r[j] == ns[j + 1]; }
    }
  }

  lemma RemoveEnds(ns: seq<Timer>, i: nat)
    requires i < |ns| && |ns| > 1
    ensures RemoveAt(ns, i)[0] == (if i == 0 then ns[1] else ns[0])
    ensures RemoveAt(ns, i)[|ns| - 2] == (if i == |ns| - 1 then ns[|ns| - 2] else ns[|ns| - 1])
  {
  }

  /** Equal but for the key of the node at position `i`. */
  predicate KeyedBut(ns: seq<Timer>, keys: seq<int>, i: int)
    reads ns
  {
    |keys| == |ns| && forall j | 0 <= j < |ns| && j != i :: keys[j] == ns[j].expire
  }

  lemma RemoveKeyed(ns: seq<Timer>, keys: seq<int>, i: nat)
    requires i < |ns| && KeyedBut(ns, keys, i)
    ensures Keyed(RemoveAt(ns, i), RemoveAt(keys, i))
  {
    forall j | 0 <= j < |ns| - 1 ensures RemoveAt(keys, i)[j] == RemoveAt(ns, i)[j].expire {
      if j < i { assert RemoveAt(ns, i)[j] == ns[j]; } else { assert RemoveAt(ns, i)[j] == ns[j + 1]; }
    }
  }

  /** The users of the first `k` timers, in order. */
  function Users(ns: seq<Timer>, k: nat): seq<nat>
    requires k <= |ns|
  {
    if k == 0 then [] else Users(ns, k - 1) + [ns[k - 1].user]
  }

  /** How tick ends: it stops at a timer that is not due, or goes on to read a deleted node. */
  datatype TickOutcome = Completed | UseAfterFree

  class SortedTimerList {
    var head: Timer?
    var tail: Timer?
    var closed: seq<nat>  // users the expiry callback was called for, in order
    ghost var nodes: seq<Timer>
    ghost var keys: seq<int>  // their expiries

    ghost predicate Ends()
      reads this
    {
      && head == (if nodes == [] then null else nodes[0])
      && tail == (if nodes == [] then null else nodes[|nodes| - 1])
    }

    /** Well linked, with `keys` in step; sorted or not. */
    ghost predicate Linked()
      reads this, nodes
    {
      Ends() && Chain(nodes) && Keyed(nodes, keys)
    }

    ghost predicate Valid()
      reads this, nodes
    {
      Linked() && Ascending(keys)
    }

    constructor ()
      ensures Valid() && nodes == [] && closed == []
    {
      head, tail, closed, nodes, keys := null, null, [], [], [];
    }

    /** Link `timer` in behind `prev`, at position `p`. */
    method Splice(timer: Timer, prev: Timer, tmp: Timer?, ghost p: nat)
      requires Linked() && timer !in nodes && !timer.freed && 0 < p <= |nodes|
      requires prev == nodes[p - 1] && tmp == Succ(nodes, p - 1)
      modifies this`tail, this`nodes, this`keys, nodes, timer
      ensures Linked() && nodes == InsertAt(old(nodes), p, timer)
      ensures keys == InsertAt(old(keys), p, old(timer.expire))
      ensures timer.expire == old(timer.expire)
    {
      prev.next := timer;
      timer.prev := prev;
      timer.next := tmp;
      if tmp != null {
        tmp.prev := timer;
      } else {
        tail := timer;
      }
      ghost var ns, ks := nodes, keys;
      nodes, keys := InsertAt(ns, p, timer), InsertAt(ks, p, timer.expire);
      assert Chain(nodes) && Ends() by { InsertChain(ns, p, timer); }
      assert Keyed(nodes, keys) by { InsertKeyed(ns, ks, p, timer); }
    }

    /** The private overload: insert behind `from`, which is at position `k`. */
    method AddAfter(timer: Timer, from: Timer, ghost k: nat)
      requires Valid() && timer !in nodes && !timer.freed
      requires k < |nodes| && from == nodes[k] && from.expire <= timer.expire
      modifies this`tail, this`nodes, this`keys, nodes, timer
      ensures Valid() && timer.expire == old(timer.expire)
      ensures nodes == InsertAt(old(nodes), InsertPos(old(keys), timer.expire), timer)
      ensures keys == InsertAt(old(keys), InsertPos(old(keys), timer.expire), timer.expire)
    {
      var prev := from;
      var tmp := prev.next;
      ghost var p := k + 1;
      while tmp != null
        invariant k < p <= |nodes| && prev == nodes[p - 1] && prev.expire <= timer.expire
        invariant tmp == Succ(nodes, p - 1)
        decreases |nodes| - p
      {
        if timer.expire < tmp.expire {
          break;
        }
        prev := tmp;
        tmp := tmp.next;
        p := p + 1;
      }
      InsertPosUnique(keys, timer.expire, p);
      InsertKeepsAscending(keys, timer.expire);
      Splice(timer, prev, tmp, p);
    }

    method AddTimer(timer: Timer?)
      requires Valid()
      requires timer != null ==> timer !in nodes && timer.prev == null && timer.next == null && !timer.freed
      modifies this`head, this`tail, this`nodes, this`keys, nodes, timer
      ensures Valid() && (timer == null ==> nodes == old(nodes))
      ensures timer != null ==>
                && timer.expire == old(timer.expire)
                && nodes == InsertAt(old(nodes), InsertPos(old(keys), timer.expire), timer)
                && keys == InsertAt(old(keys), InsertPos(old(keys), timer.expire), timer.expire)
    {
      if timer == null {
        return;
      }
      if head == null {
        head, tail := timer, timer;
        nodes, keys := [timer], [timer.expire];
        return;
      }
      if timer.expire < head.expire {
        InsertKeepsAscending(keys, timer.expire);
        timer.next := head;
        head.prev := timer;
        head := timer;
        ghost var ns, ks := nodes, keys;
        nodes, keys := InsertAt(ns, 0, timer), InsertAt(ks, 0, timer.expire);
        InsertChain(ns, 0, timer);
        InsertKeyed(ns, ks, 0, timer);
        return;
      }
      AddAfter(timer, head, 0);
    }

    /** The ends of the list without position `i`. */
    ghost predicate EndsWithout(i: int)
      requires 0 <= i < |nodes|
      reads this
    {
      && head == (if |nodes| == 1 then null else if i == 0 then nodes[1] else nodes[0])
      && tail == (if |nodes| == 1 then null
                  else if i == |nodes| - 1 then nodes[|nodes| - 2] else nodes[|nodes| - 1])
    }

    /** Drop a bypassed node from the sequence. */
    ghost method Drop(i: nat)
      requires i < |nodes| && Bypassed(nodes, i) && KeyedBut(nodes, keys, i) && EndsWithout(i)
      modifies this`nodes, this`keys
      ensures Linked() && nodes == RemoveAt(old(nodes), i) && keys == RemoveAt(old(keys), i)
    {
      ghost var ns, ks := nodes, keys;
      nodes, keys := RemoveAt(ns, i), RemoveAt(ks, i);
      assert Ends() by { if |ns| > 1 { RemoveEnds(ns, i); } }
      assert Chain(nodes) by { RemoveChain(ns, i); }
      assert Keyed(nodes, keys) by { RemoveKeyed(ns, ks, i); }
    }

    /** The four cases of remove: the pointers around position `i`, and the ends. */
    method Unlink(timer: Timer, ghost i: nat)
      requires Linked() && i < |nodes| && timer == nodes[i]
      modifies this`head, this`tail, nodes
      ensures Bypassed(nodes, i) && EndsWithout(i) && Keyed(nodes, keys) && timer.freed
    {
      if timer == head && timer == tail {
        timer.freed := true;
        head := null;
        tail := null;
        return;
      }
      if timer == head {
        head := head.next;
        head.prev := null;
        timer.freed := true;
        return;
      }
      if timer == tail {
        tail := tail.prev;
        tail.next := null;
        timer.freed := true;
        return;
      }
      timer.prev.next := timer.next;
      timer.next.prev := timer.prev;
      timer.freed := true;
    }

    /** `i` is the position of `timer`. */
    method Remove(timer: Timer?, ghost i: nat)
      requires Valid() && (timer != null ==> i < |nodes| && timer == nodes[i])
      modifies this`head, this`tail, this`nodes, this`keys, nodes
      ensures Valid() && (timer == null ==> nodes == old(nodes))
      ensures timer != null ==>
                && timer.freed
                && nodes == RemoveAt(old(nodes), i) && keys == RemoveAt(old(keys), i)
    {
      if timer == null {
        return;
      }
      RemoveKeepsAscending(keys, i);
      Unlink(timer, i);
      Drop(i);
    }

    /** The head is taken out and inserted behind its successor. */
    method MoveHead(timer: Timer)
      requires Ends() && Chain(nodes) && 1 < |nodes| && timer == nodes[0] && KeyedBut(nodes, keys, 0)
      requires Ascending(RemoveAt(keys, 0)) && RemoveAt(keys, 0)[0] <= timer.expire
      modifies this`head, this`tail, this`nodes, this`keys, nodes
      ensures Valid() && timer.expire == old(timer.expire)
      ensures var p := InsertPos(RemoveAt(old(keys), 0), timer.expire);
              && nodes == InsertAt(RemoveAt(old(nodes), 0), p, timer)
              && keys == InsertAt(RemoveAt(old(keys), 0), p, timer.expire)
    {
      head := head.next;
      head.prev := null;
      assert Bypassed(nodes, 0);
      Drop(0);
      timer.next := null;
      AddAfter(timer, head, 0);
    }

    /** The same for a node in the middle. */
    method MoveInner(timer: Timer, ghost i: nat)
      requires Ends() && Chain(nodes) && 0 < i < |nodes| - 1 && timer == nodes[i] && KeyedBut(nodes, keys, i)
      requires Ascending(RemoveAt(keys, i)) && RemoveAt(keys, i)[i] <= timer.expire
      modifies this`tail, this`nodes, this`keys, nodes
      ensures Valid() && timer.expire == old(timer.expire)
      ensures var p := InsertPos(RemoveAt(old(keys), i), timer.expire);
              && nodes == InsertAt(RemoveAt(old(nodes), i), p, timer)
              && keys == InsertAt(RemoveAt(old(keys), i), p, timer.expire)
    {
      timer.prev.next := timer.next;
      timer.next.prev := timer.prev;
      assert Bypassed(nodes, i);
      Drop(i);
      AddAfter(timer, timer.next, i);
    }

    /** The second half of adjust_timer: take the node out and insert it behind its successor. */
    method MoveBack(timer: Timer, ghost i: nat)
      requires Ends() && Chain(nodes) && i + 1 < |nodes| && timer == nodes[i] && KeyedBut(nodes, keys, i)
      requires Ascending(RemoveAt(keys, i)) && RemoveAt(keys, i)[i] <= timer.expire
      modifies this`head, this`tail, this`nodes, this`keys, nodes
      ensures Valid() && timer.expire == old(timer.expire)
      ensures var p := InsertPos(RemoveAt(old(keys), i), timer.expire);
              && nodes == InsertAt(RemoveAt(old(nodes), i), p, timer)
              && keys == InsertAt(RemoveAt(old(keys), i), p, timer.expire)
    {
      if timer == head {
        MoveHead(timer);
      } else {
        MoveInner(timer, i);
      }
    }

    /** The new expiry of the node at `i` is its key. */
    ghost method Rekey(i: nat)
      requires Ends() && Chain(nodes) && i < |nodes| && KeyedBut(nodes, keys, i)
      modifies this`keys
      ensures Linked() && keys == old(keys)[i := nodes[i].expire]
    {
      keys := keys[i := nodes[i].expire];
    }

    /**
     `timer`, at position `i`, has a new expiry: move it behind the nodes that expire no later.
     Lowered below its predecessor, and then only, it leaves the list unsorted.
     */
    method AdjustTimer(timer: Timer?, ghost i: nat)
      requires Ends() && Chain(nodes)
      requires timer != null ==>
                 i < |nodes| && timer == nodes[i] && KeyedBut(nodes, keys, i) && Ascending(RemoveAt(keys, i))
      requires timer == null ==> Keyed(nodes, keys)
      modifies this`head, this`tail, this`nodes, this`keys, nodes
      ensures Linked() && (timer == null ==> nodes == old(nodes) && keys == old(keys))
      ensures timer != null ==>
                && timer.expire == old(timer.expire)
                && (Ascending(keys) <==> NotBelow(old(keys), i, timer.expire))
                && if NotBelow(old(keys), i, timer.expire) then
                     var p := InsertPos(RemoveAt(old(keys), i), timer.expire);
                     && nodes == InsertAt(RemoveAt(old(nodes), i), p, timer)
                     && keys == InsertAt(RemoveAt(old(keys), i), p, timer.expire)
                   else nodes == old(nodes) && keys == old(keys)[i := timer.expire]
    {
      if timer == null {
        return;
      }
      AdjustPosition(keys, i, timer.expire);
      var tmp := timer.next;
      if tmp == null || timer.expire < tmp.expire {
        InsertRemoved(nodes, i);
        Rekey(i);
        return;
      }
      MoveBack(timer, i);
    }

    /** The body of tick's loop: callback, next head, delete. The head stays when there is no next. */
    method ExpireHead()
      requires Linked() && nodes != []
      modifies this, nodes
      ensures closed == old(closed) + [old(nodes)[0].user] && old(nodes)[0].freed
      ensures nodes == old(nodes)[1..] && keys == old(keys)[1..]
      ensures if nodes == [] then head == old(head) else Linked()
    {
      var cur := head;
      closed := closed + [cur.user];
      if cur.next != null {
        head := cur.next;
        head.prev := null;
        cur.freed := true;
        assert Bypassed(nodes, 0);
        Drop(0);
      } else {
        cur.freed := true;
        nodes, keys := [], [];
      }
    }

    /** tick's loop over a list that is not empty; `k` counts the timers that expired. */
    method ExpireDue(now: int) returns (outcome: TickOutcome, ghost k: nat)
      requires Linked() && nodes != []
      modifies this, nodes
      ensures k <= |old(nodes)| && nodes == old(nodes)[k..] && keys == old(keys)[k..]
      ensures closed == old(closed) + Users(old(nodes), k)
      ensures forall i | 0 <= i < k :: old(nodes)[i].freed && old(keys)[i] <= now
      ensures outcome == Completed ==> Linked() && k < |old(nodes)| && now < old(keys)[k]
      ensures outcome == UseAfterFree ==> k == |old(nodes)| && head != null && head.freed
    {
      ghost var ns, ks := nodes, keys;
      outcome, k := Completed, 0;
      while head != null
        invariant 0 <= k <= |ns| && nodes == ns[k..] && keys == ks[k..]
        invariant head != null && (k == |ns| ==> head.freed)
        invariant Distinct(ns) && (k < |ns| ==> Linked())
        invariant closed == old(closed) + Users(ns, k)
        invariant forall i | 0 <= i < k :: ns[i].freed && ks[i] <= now
        decreases |ns| - k
      {
        if head.freed {
          outcome := UseAfterFree;
          break;
        }
        if now < head.expire {
          break;
        }
        assert ns[k..][1..] == ns[k + 1..] && ks[k..][1..] == ks[k + 1..] && ns[k..][0] == ns[k];
        assert forall i | 0 <= i < k :: ns[i] !in nodes;
        ExpireHead();
        k := k + 1;
      }
    }

    /**
     Close the users of the timers that are due, and delete these. The head is moved only when
     there is a next node, so when no timer outlives `now` the loop reads the last one after
     its deletion.
     */
    method Tick(now: int) returns (outcome: TickOutcome)
      requires Valid()
      modifies this, nodes
      ensures outcome == UseAfterFree <==> old(keys) != [] && old(keys[|keys| - 1]) <= now
      ensures var due := InsertPos(old(keys), now);
              && closed == old(closed) + Users(old(nodes), due)
              && (forall i | 0 <= i < due :: old(nodes)[i].freed)
              && (outcome == Completed ==> Valid() && nodes == old(nodes)[due..] && keys == old(keys)[due..])
              && (outcome == UseAfterFree ==> due == |old(nodes)| && head != null && head.freed)
    {
      if head == null {
        return Completed;
      }
      ghost var k;
      outcome, k := ExpireDue(now);
      InsertPosUnique(old(keys), now, k);
    }
  }
}
