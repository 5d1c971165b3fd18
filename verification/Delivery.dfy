/**
 The resumption of `http_conn::write` after short writes, as a function on its counters and
 its two buffers. What goes out is recorded as positions in the header and in the file.
 */
module Delivery {

  datatype Source = Head(i: int) | File(i: int)

  datatype Iov = Iov(base: int, len: int)

  /** `have` and `left` are bytes_have_send and bytes_to_send, `count` is m_iv_count. */
  datatype State = State(iv0: Iov, iv1: Iov, count: nat, have: int, left: int, out: seq<Source>)

  function Heads(base: int, len: nat): seq<Source> { seq(len, k => Head(base + k)) }

  function Files(base: int, len: nat): seq<Source> { seq(len, k => File(base + k)) }

  /** The response: a header of `w` bytes and a file of `f` bytes. */
  function Message(w: nat, f: nat): seq<Source> { Heads(0, w) + Files(0, f) }

  predicate Sized(s: State) { s.iv0.len >= 0 && (s.count == 2 ==> s.iv1.len >= 0) }

  /** What writev would send if it could send everything. */
  function Queued(s: State): seq<Source>
    requires Sized(s)
  {
    Heads(s.iv0.base, s.iv0.len) + if s.count == 2 then Files(s.iv1.base, s.iv1.len) else []
  }

  /** One successful writev, of at most `n` bytes, and the bookkeeping behind it; `w` is m_write_idx. */
  function Sent(s: State, w: nat, n: nat): (t: State)
    requires Sized(s)
    ensures t.left >= 0 ==> Sized(t)
  {
    var m := if n <= |Queued(s)| then n else |Queued(s)|;
    var have, left, out := s.have + m, s.left - m, s.out + Queued(s)[..m];
    if have >= s.iv0.len then State(s.iv0.(len := 0), Iov(have - w, left), s.count, have, left, out)
    else State(Iov(have, s.iv0.len - have), s.iv1, s.count, have, left, out)
  }

  /** Several writev, until the counter says that all is sent. */
  function SendAll(s: State, w: nat, ns: seq<nat>): (t: State)
    requires Sized(s)
    ensures t.left > 0 ==> Sized(t)
    decreases |ns|
  {
    if ns == [] || s.left <= 0 then s
    else
      var t := Sent(s, w, ns[0]);
      if t.left <= 0 then t else SendAll(t, w, ns[1..])
  }

  /** The bytes sent and to be sent keep their sum, whatever else happens. */
  lemma {:induction false} SumKept(s: State, w: nat, ns: seq<nat>)
    requires Sized(s)
    ensures var t := SendAll(s, w, ns); t.have + t.left == s.have + s.left
    decreases |ns|
  {
    if ns != [] && s.left > 0 {
      var t := Sent(s, w, ns[0]);
      if t.left > 0 { SumKept(t, w, ns[1..]); }
    }
  }

  // ---------- what is queued is what is left ----------

  predicate Faithful(s: State, w: nat, f: nat) {
    && Sized(s) && 0 <= s.have <= w + f && s.left == w + f - s.have
    && Queued(s) == Message(w, f)[s.have..]
  }

  /** The fields from which this follows; a response without a file uses one buffer only. */
  predicate Exact(s: State, w: nat, f: nat) {
    && 0 <= s.have <= w + f && s.left == w + f - s.have && (s.count == 2 || (s.count == 1 && f == 0))
    && (if s.have < w then s.iv0 == Iov(s.have, w - s.have) else s.iv0.len == 0)
    && (s.count == 2 ==> s.iv1 == if s.have < w then Iov(0, f) else Iov(s.have - w, s.left))
  }

  lemma ExactIsFaithful(s: State, w: nat, f: nat)
    requires Exact(s, w, f)
    ensures Faithful(s, w, f)
  {
    var q, m := Queued(s), Message(w, f)[s.have..];
    assert |q| == |m|;
    forall k | 0 <= k < |q| ensures q[k] == m[k] {
      assert m[k] == Message(w, f)[s.have + k];
    }
  }

  /** A write that leaves the total inside the header although an earlier one had begun it. */
  predicate CutsAgain(s: State, t: State, w: nat) { 0 < s.have && t.have < w }

  lemma NotFaithful(s: State, w: nat, f: nat, n: nat)
    requires Exact(s, w, f) && CutsAgain(s, Sent(s, w, n), w)
    ensures !Faithful(Sent(s, w, n), w, f)
  {
    var t := Sent(s, w, n);
    var m := Message(w, f)[t.have..];
    assert m[0] == Head(t.have);
    if t.have >= s.iv0.len {
      assert Queued(t) != [] ==> Queued(t)[0].File?;
    } else {
      assert |Queued(t)| < |m|;
    }
  }

  lemma TotalAfter(s: State, w: nat, f: nat, n: nat)
    requires Exact(s, w, f)
    ensures Sent(s, w, n).have == if s.have + n <= w + f then s.have + n else w + f
  {
  }

  /** From exact buffers writev takes the next bytes of the response. */
  lemma TakesNext(s: State, w: nat, f: nat, n: nat)
    requires Exact(s, w, f)
    ensures var t := Sent(s, w, n);
            s.have <= t.have <= w + f && t.out == s.out + Message(w, f)[s.have..t.have]
  {
    var t := Sent(s, w, n);
    ExactIsFaithful(s, w, f);
    assert Queued(s)[..t.have - s.have] == Message(w, f)[s.have..t.have];
  }

  lemma StaysExact(s: State, w: nat, f: nat, n: nat)
    requires Exact(s, w, f) && !CutsAgain(s, Sent(s, w, n), w)
    ensures Exact(Sent(s, w, n), w, f)
  {
  }

  /** One write keeps the buffers right if and only if it does not cut the header again. */
  lemma WriteKeepsExactly(s: State, w: nat, f: nat, n: nat)
    requires Exact(s, w, f)
    ensures var t := Sent(s, w, n);
            && (Faithful(t, w, f) <==> !CutsAgain(s, t, w))
            && (Faithful(t, w, f) ==> Exact(t, w, f))
  {
    var t := Sent(s, w, n);
    if CutsAgain(s, t, w) {
      NotFaithful(s, w, f, n);
    } else {
      StaysExact(s, w, f, n);
      ExactIsFaithful(t, w, f);
    }
  }

  // ---------- whole runs ----------

  predicate FaithfulThroughout(s: State, w: nat, f: nat, ns: seq<nat>)
    decreases |ns|
  {
    Faithful(s, w, f) && (ns == [] || FaithfulThroughout(Sent(s, w, ns[0]), w, f, ns[1..]))
  }

  /** How many of the writes leave the total strictly inside the header. */
  function Cuts(w: nat, all: nat, have: nat, ns: seq<nat>): nat
    decreases |ns|
  {
    if ns == [] then 0
    else
      var total := if have + ns[0] <= all then have + ns[0] else all;
      (if 0 < total < w then 1 else 0) + Cuts(w, all, total, ns[1..])
  }

  lemma {:induction false} NoCutsBehindHeader(w: nat, all: nat, have: nat, ns: seq<nat>)
    requires w <= have <= all
    ensures Cuts(w, all, have, ns) == 0
    decreases |ns|
  {
    if ns != [] {
      NoCutsBehindHeader(w, all, if have + ns[0] <= all then have + ns[0] else all, ns[1..]);
    }
  }

  /** No write of the run cuts the header again, as far as the buffers are right. */
  predicate CutFree(s: State, w: nat, f: nat, ns: seq<nat>)
    requires Exact(s, w, f)
    decreases |ns|
  {
    if ns == [] then true
    else if CutsAgain(s, Sent(s, w, ns[0]), w) then false
    else
      StaysExact(s, w, f, ns[0]);
      CutFree(Sent(s, w, ns[0]), w, f, ns[1..])
  }

  lemma {:induction false} FaithfulIffCutFree(s: State, w: nat, f: nat, ns: seq<nat>)
    requires Exact(s, w, f)
    ensures FaithfulThroughout(s, w, f, ns) <==> CutFree(s, w, f, ns)
    decreases |ns|
  {
    assert Faithful(s, w, f) by { ExactIsFaithful(s, w, f); }
    if ns != [] {
      var t := Sent(s, w, ns[0]);
      assert Faithful(t, w, f) <==> !CutsAgain(s, t, w) by { WriteKeepsExactly(s, w, f, ns[0]); }
      if !CutsAgain(s, t, w) {
        StaysExact(s, w, f, ns[0]);
        FaithfulIffCutFree(t, w, f, ns[1..]);
      }
    }
  }

  lemma {:induction false} CutFreeIffCutOnce(s: State, w: nat, f: nat, ns: seq<nat>)
    requires Exact(s, w, f)
    ensures CutFree(s, w, f, ns) <==> (if 0 < s.have < w then 1 else 0) + Cuts(w, w + f, s.have, ns) <= 1
    decreases |ns|
  {
    if ns != [] {
      var t := Sent(s, w, ns[0]);
      TotalAfter(s, w, f, ns[0]);
      if t.have >= w { NoCutsBehindHeader(w, w + f, t.have, ns[1..]); }
      if !CutsAgain(s, t, w) {
        StaysExact(s, w, f, ns[0]);
        CutFreeIffCutOnce(t, w, f, ns[1..]);
      }
    }
  }

  /**
   Main result: the buffers describe exactly what is left after every write of a run if and
   only if at most one write leaves the total strictly inside the header.
   */
  lemma FaithfulIffCutOnce(s: State, w: nat, f: nat, ns: seq<nat>)
    requires Exact(s, w, f) && s.have == 0
    ensures FaithfulThroughout(s, w, f, ns) <==> Cuts(w, w + f, 0, ns) <= 1
  {
    FaithfulIffCutFree(s, w, f, ns);
    CutFreeIffCutOnce(s, w, f, ns);
  }

  lemma PrefixGrows(m: seq<Source>, i: nat, j: nat)
    requires i <= j <= |m|
    ensures m[..i] + m[i..j] == m[..j]
  {
  }

  /** In such a run the bytes sent are the beginning of the response, each once and in order. */
  lemma {:induction false} DeliversInOrder(s: State, w: nat, f: nat, ns: seq<nat>)
    requires Exact(s, w, f) && s.out == Message(w, f)[..s.have] && FaithfulThroughout(s, w, f, ns)
    ensures var t := SendAll(s, w, ns); Exact(t, w, f) && t.out == Message(w, f)[..t.have]
    decreases |ns|
  {
    if ns != [] && s.left > 0 {
      var t := Sent(s, w, ns[0]);
      assert Exact(t, w, f) by { WriteKeepsExactly(s, w, f, ns[0]); }
      assert t.out == Message(w, f)[..t.have] by {
        TakesNext(s, w, f, ns[0]);
        PrefixGrows(Message(w, f), s.have, t.have);
      }
      DeliversInOrder(t, w, f, ns[1..]);
    }
  }

  /** The whole response has gone out when the counter of bytes to be sent reaches zero. */
  lemma DeliversAll(s: State, w: nat, f: nat, ns: seq<nat>)
    requires Exact(s, w, f) && s.have == 0 && s.out == [] && Cuts(w, w + f, 0, ns) <= 1
    ensures var t := SendAll(s, w, ns);
            && Exact(t, w, f) && t.out == Message(w, f)[..t.have]
            && (t.left <= 0 ==> t.have == w + f && t.out == Message(w, f))
  {
    FaithfulIffCutOnce(s, w, f, ns);
    DeliversInOrder(s, w, f, ns);
    assert Message(w, f)[..w + f] == Message(w, f);
  }

  /** The state that a second cut leaves: the last byte of the header is out of reach for ever. */
  predicate Spoiled(s: State, w: nat) {
    && Sized(s) && s.have >= 0 && s.iv0.base >= 0 && s.iv0.base + s.iv0.len < w
    && Head(w - 1) !in s.out
  }

  lemma SpoiledStays(s: State, w: nat, n: nat)
    requires Spoiled(s, w)
    ensures var t := Sent(s, w, n); Head(w - 1) !in t.out && (t.left > 0 ==> Spoiled(t, w))
  {
    forall x | x in Queued(s) ensures x != Head(w - 1) {
      var k :| 0 <= k < |Queued(s)| && Queued(s)[k] == x;
      assert k < s.iv0.len ==> x == Head(s.iv0.base + k);
    }
  }

  lemma {:induction false} SpoiledForEver(s: State, w: nat, ns: seq<nat>)
    requires Spoiled(s, w)
    ensures Head(w - 1) !in SendAll(s, w, ns).out
    decreases |ns|
  {
    if ns != [] && s.left > 0 {
      SpoiledStays(s, w, ns[0]);
      var t := Sent(s, w, ns[0]);
      if t.left > 0 { SpoiledForEver(t, w, ns[1..]); }
    }
  }

  lemma CutSpoils(s: State, w: nat, f: nat, n: nat)
    requires Exact(s, w, f) && s.out == Message(w, f)[..s.have] && CutsAgain(s, Sent(s, w, n), w)
    ensures Spoiled(Sent(s, w, n), w)
  {
    var t := Sent(s, w, n);
    TakesNext(s, w, f, n);
    PrefixGrows(Message(w, f), s.have, t.have);
    assert forall k | 0 <= k < t.have :: Message(w, f)[k] == Head(k);
  }

  /** With two cuts the last byte of the header never goes out, however often write is called. */
  lemma {:induction false} HeaderEndLost(s: State, w: nat, f: nat, ns: seq<nat>)
    requires Exact(s, w, f) && s.out == Message(w, f)[..s.have]
    requires (if 0 < s.have < w then 1 else 0) + Cuts(w, w + f, s.have, ns) > 1
    ensures Head(w - 1) !in SendAll(s, w, ns).out
    decreases |ns|
  {
    var t := Sent(s, w, ns[0]);
    TotalAfter(s, w, f, ns[0]);
    if s.have >= w { NoCutsBehindHeader(w, w + f, s.have, ns); }
    if t.have >= w { NoCutsBehindHeader(w, w + f, t.have, ns[1..]); }
    if CutsAgain(s, t, w) {
      CutSpoils(s, w, f, ns[0]);
      SpoiledForEver(t, w, ns[1..]);
    } else {
      StaysExact(s, w, f, ns[0]);
      TakesNext(s, w, f, ns[0]);
      PrefixGrows(Message(w, f), s.have, t.have);
      HeaderEndLost(t, w, f, ns[1..]);
    }
  }

  /** At most one write of the run leaves the total strictly inside the header. */
  predicate CutOnce(w: nat, f: nat, ns: seq<nat>) { Cuts(w, w + f, 0, ns) <= 1 }

  /** The run has sent the header and the file, each byte once and in order. */
  predicate SentWhole(s: State, w: nat, f: nat, ns: seq<nat>)
    requires Sized(s)
  {
    SendAll(s, w, ns).out == Message(w, f)
  }

  /**
   Main result: a response that write has finished is the header and the file, each byte once
   and in order, if and only if at most one write left the total strictly inside the header.
   */
  lemma DeliversIffCutOnce(s: State, w: nat, f: nat, ns: seq<nat>)
    requires Exact(s, w, f) && s.have == 0 && s.out == []
    requires SendAll(s, w, ns).left <= 0
    ensures SentWhole(s, w, f, ns) <==> CutOnce(w, f, ns)
  {
    if Cuts(w, w + f, 0, ns) <= 1 {
      DeliversAll(s, w, f, ns);
    } else {
      if w == 0 { NoCutsBehindHeader(w, w + f, 0, ns); }
      HeaderEndLost(s, w, f, ns);
      assert Message(w, f)[w - 1] == Head(w - 1);
    }
  }

  /** Calls of write that were suspended in between make one run. */
  lemma {:induction false} CallsCompose(s: State, w: nat, a: seq<nat>, b: seq<nat>)
    requires Sized(s)
    ensures var t := SendAll(s, w, a); SendAll(s, w, a + b) == if t.left <= 0 then t else SendAll(t, w, b)
    decreases |a|
  {
    if a == [] {
      assert a + b == b;
    } else if s.left > 0 {
      var t := Sent(s, w, a[0]);
      assert (a + b)[1..] == a[1..] + b;
      if t.left > 0 { CallsCompose(t, w, a[1..], b); }
    }
  }

  // ---------- counters of an earlier response ----------

  /**
   process_write on a connection whose last response was not followed by init; `w` counts what
   that one has left in the buffer too.
   */
  predicate Stale(s: State, w: nat, f: nat) {
    && s.have > 0 && w > 0 && s.iv0 == Iov(0, w) && s.left == w + f
    && (if s.count == 2 then s.iv1 == Iov(0, f) else s.count == 1 && f == 0)
  }

  /** The first writev takes the start of the buffers. */
  lemma StaleSends(s: State, w: nat, f: nat, n: nat)
    requires Stale(s, w, f)
    ensures var m := if n <= w + f then n else w + f;
            Sent(s, w, n).out == s.out + Message(w, f)[..m] && Sent(s, w, n).left == w + f - m
  {
    assert Queued(s) == Message(w, f);
  }

  /** After `m` bytes: what is queued, if anything, is not what comes next. */
  predicate Astray(s: State, w: nat, f: nat, m: nat) {
    && Sized(s) && m < w + f && m < s.have && s.left == w + f - m && s.out == Message(w, f)[..m]
    && (s.iv0.len > 0 ==> s.iv0.base == s.have)
    && (s.iv0.len == 0 && s.count == 2 ==> s.iv1.base == s.have - w)
  }

  /** The byte at `m` is wrong. */
  predicate WrongAt(out: seq<Source>, w: nat, f: nat, m: nat) {
    m < |out| && m < w + f && out[m] != Message(w, f)[m]
  }

  lemma StaleGoesAstray(s: State, w: nat, f: nat, n: nat)
    requires Stale(s, w, f) && s.out == [] && n < w + f
    ensures Astray(Sent(s, w, n), w, f, n)
  {
    StaleSends(s, w, f, n);
    assert |Queued(s)| == w + f;
  }

  lemma AstraySends(s: State, w: nat, f: nat, m: nat, n: nat)
    requires Astray(s, w, f, m)
    ensures var t := Sent(s, w, n); Astray(t, w, f, m) || WrongAt(t.out, w, f, m)
  {
    var q, t := Queued(s), Sent(s, w, n);
    assert Message(w, f)[m] == if m < w then Head(m) else File(m - w);
    if n > 0 && q != [] {
      assert q[0] == if s.iv0.len > 0 then Head(s.have) else File(s.have - w);
      assert t.out[m] == q[0];
    }
  }

  lemma {:induction false} WrongStays(s: State, w: nat, f: nat, m: nat, ns: seq<nat>)
    requires Sized(s) && WrongAt(s.out, w, f, m)
    ensures WrongAt(SendAll(s, w, ns).out, w, f, m)
    decreases |ns|
  {
    if ns != [] && s.left > 0 {
      var t := Sent(s, w, ns[0]);
      if t.left > 0 { WrongStays(t, w, f, m, ns[1..]); }
    }
  }

  /** A run that has gone astray never ends by its counter, or has sent a wrong byte. */
  lemma {:induction false} AstrayStays(s: State, w: nat, f: nat, m: nat, ns: seq<nat>)
    requires Astray(s, w, f, m)
    ensures var t := SendAll(s, w, ns); t.left > 0 || WrongAt(t.out, w, f, m)
    decreases |ns|
  {
    if ns != [] {
      var t := Sent(s, w, ns[0]);
      AstraySends(s, w, f, m, ns[0]);
      if Astray(t, w, f, m) {
        AstrayStays(t, w, f, m, ns[1..]);
      } else if t.left > 0 {
        WrongStays(t, w, f, m, ns[1..]);
      }
    }
  }

  /**
   Main result on a response without init before it: when write has finished it, it is the
   buffer and the file, each byte once and in order, if and only if the first writev took
   everything.
   */
  lemma StaleInOnePiece(s: State, w: nat, f: nat, ns: seq<nat>)
    requires Stale(s, w, f) && s.out == [] && ns != [] && SendAll(s, w, ns).left <= 0
    ensures SentWhole(s, w, f, ns) <==> ns[0] >= w + f
  {
    StaleSends(s, w, f, ns[0]);
    if ns[0] >= w + f {
      assert Message(w, f)[..w + f] == Message(w, f);
    } else {
      StaleGoesAstray(s, w, f, ns[0]);
      AstrayStays(Sent(s, w, ns[0]), w, f, ns[0], ns[1..]);
    }
  }

  /** Behind its first writev already, what is queued is what is left only if that took everything. */
  lemma StaleQueue(s: State, w: nat, f: nat, n: nat)
    requires Stale(s, w, f) && s.out == []
    ensures Sized(Sent(s, w, n)) && 0 <= w + f - Sent(s, w, n).left <= w + f
    ensures Queued(Sent(s, w, n)) == Message(w, f)[w + f - Sent(s, w, n).left..] <==> n >= w + f
  {
    StaleSends(s, w, f, n);
    if n < w + f {
      var t, rest := Sent(s, w, n), Message(w, f)[n..];
      StaleGoesAstray(s, w, f, n);
      assert rest[0] == if n < w then Head(n) else File(n - w);
      assert t.iv0.len > 0 && Queued(t) != [] ==> Queued(t)[0] == Head(t.have);
      assert t.iv0.len == 0 && Queued(t) != [] ==> Queued(t)[0] == File(t.have - w);
    }
  }

  // ---------- two cuts ----------

  function Started(w: nat, f: nat): State { State(Iov(0, w), Iov(0, f), 2, 0, w + f, []) }

  /** Two short writes in a header of four bytes: the counters finish, the file does not. */
  lemma TwoCutsCorrupt()
    ensures var t := SendAll(Started(4, 2), 4, [1, 1, 3, 1]);
            && Cuts(4, 6, 0, [1, 1, 3, 1]) == 2 && t.have == 6 && t.left == 0
            && t.out == [Head(0), Head(1), Head(2), File(0), File(1), File(1)]
            && t.out != Message(4, 2)
  {
    var s2 := State(Iov(2, 1), Iov(0, 2), 2, 2, 4, [Head(0), Head(1)]);
    FirstTwo();
    LastTwo(s2);
    CallsCompose(Started(4, 2), 4, [1, 1], [3, 1]);
    assert [1, 1] + [3, 1] == [1, 1, 3, 1];
    assert Message(4, 2)[3] == Head(3);
    CutsOf();
  }

  lemma FirstTwo()
    ensures SendAll(Started(4, 2), 4, [1, 1]) == State(Iov(2, 1), Iov(0, 2), 2, 2, 4, [Head(0), Head(1)])
  {
    var s0, s1 := Started(4, 2), State(Iov(1, 3), Iov(0, 2), 2, 1, 5, [Head(0)]);
    assert Queued(s0)[..1] == [Head(0)] && Queued(s1)[..1] == [Head(1)];
    assert Sent(s0, 4, 1) == s1 && [1, 1][1..] == [1];
    assert SendAll(s1, 4, [1]) == Sent(s1, 4, 1);
  }

  lemma LastTwo(s2: State)
    requires s2 == State(Iov(2, 1), Iov(0, 2), 2, 2, 4, [Head(0), Head(1)])
    ensures var t := SendAll(s2, 4, [3, 1]);
            t.have == 6 && t.left == 0 && t.out == [Head(0), Head(1), Head(2), File(0), File(1), File(1)]
  {
    var s3 := State(Iov(2, 0), Iov(1, 1), 2, 5, 1, [Head(0), Head(1), Head(2), File(0), File(1)]);
    assert Queued(s2)[..3] == [Head(2), File(0), File(1)] && Queued(s3)[..1] == [File(1)];
    assert Sent(s2, 4, 3) == s3 && [3, 1][1..] == [1];
    assert SendAll(s3, 4, [1]) == Sent(s3, 4, 1);
  }

  lemma CutsOf()
    ensures Cuts(4, 6, 0, [1, 1, 3, 1]) == 2
  {
    assert [3, 1][1..] == [1] && [1, 3, 1][1..] == [3, 1] && [1, 1, 3, 1][1..] == [1, 3, 1];
    NoCutsBehindHeader(4, 6, 5, [1]);
    assert Cuts(4, 6, 2, [3, 1]) == 0;
    assert Cuts(4, 6, 1, [1, 3, 1]) == 1;
  }

  lemma {:induction false} StaysStalled(t: State, w: nat, ns: seq<nat>)
    requires Sized(t) && t.count == 1 && t.iv0.len == 0 && t.have >= 0 && t.left > 0
    ensures SendAll(t, w, ns).left == t.left
    decreases |ns|
  {
    if ns != [] { StaysStalled(Sent(t, w, ns[0]), w, ns[1..]); }
  }

  /** Without a file, a second cut can leave nothing queued with bytes still to be sent, for ever. */
  lemma SecondCutStalls(s: State, w: nat, n: nat, ns: seq<nat>)
    requires Exact(s, w, 0) && s.count == 1 && CutsAgain(s, Sent(s, w, n), w) && Sent(s, w, n).have >= w - s.have
    ensures var t := Sent(s, w, n); 0 < t.left == SendAll(t, w, ns).left
  {
    StaysStalled(Sent(s, w, n), w, ns);
  }
}
