/** Streams that arrive in pieces: what recv can answer, and pieces that do not cut a body. */
module Arrivals {
  import opened RequestGrammar
  import opened ContentReader

  type Data = s: string | s != [] witness "a"

  /** One answer of recv: some bytes, EAGAIN, the peer's end of stream, or another error. */
  datatype Recv = Bytes(data: Data) | WouldBlock | Closed | Failed

  /** The bytes that come before any other answer. */
  function BytesUntil(script: seq<Recv>): string {
    if script == [] || !script[0].Bytes? then [] else script[0].data + BytesUntil(script[1..])
  }

  /** The first other answer is EAGAIN, which is also what comes after the last one. */
  predicate Drains(script: seq<Recv>) {
    script == [] || script[0].WouldBlock? || (script[0].Bytes? && Drains(script[1..]))
  }

  /** After `got` has arrived on top of `before`, `left` still says what `script` says. */
  predicate Progress(before: string, script: seq<Recv>, got: string, left: seq<Recv>) {
    before + BytesUntil(script) == got + BytesUntil(left) && (Drains(script) <==> Drains(left))
  }

  lemma NextBytes(before: string, script: seq<Recv>, got: string, left: seq<Recv>)
    requires Progress(before, script, got, left) && left != [] && left[0].Bytes?
    ensures Progress(before, script, got + left[0].data, left[1..])
    ensures |before| + |BytesUntil(script)| >= |got| + |left[0].data|
  {
    Regroup(got, left[0].data, BytesUntil(left[1..]));
  }

  /** What the first `k` answers brought. */
  function Brought(script: seq<Recv>, k: nat): string
    requires k <= |script| && forall i | 0 <= i < k :: script[i].Bytes?
  {
    if k == 0 then [] else script[0].data + Brought(script[1..], k - 1)
  }

  /** With the first answer that is not bytes at `k`: the script runs dry exactly when that is EAGAIN or the end. */
  lemma {:induction false} DrainsAt(script: seq<Recv>, k: nat)
    requires k <= |script| && (forall i | 0 <= i < k :: script[i].Bytes?) && (k < |script| ==> !script[k].Bytes?)
    ensures Drains(script) <==> k == |script| || script[k] == WouldBlock
    ensures BytesUntil(script) == Brought(script, k)
  {
    if k > 0 { DrainsAt(script[1..], k - 1); }
  }

  function Concat(pieces: seq<string>): string {
    if pieces == [] then [] else Concat(pieces[..|pieces| - 1]) + pieces[|pieces| - 1]
  }

  /** A stream that ends here does not end inside a body, or only where parse_line stays. */
  predicate EndsWell(s: string) {
    match Parse(NEW_REQUEST, s)
    case Body(r, rest) => |rest| >= r.contentLength || Stays(rest)
    case _ => true
  }

  /** No piece ends badly inside a body. */
  predicate Uncut(pieces: seq<string>) {
    pieces == [] || (Uncut(pieces[..|pieces| - 1]) && EndsWell(Concat(pieces)))
  }

  lemma {:induction false} UncutPrefix(pieces: seq<string>, i: nat)
    requires i <= |pieces| && Uncut(pieces)
    ensures Uncut(pieces[..i])
  {
    var n := |pieces|;
    if i == n {
      assert pieces[..i] == pieces;
    } else {
      UncutPrefix(pieces[..n - 1], i);
      assert pieces[..n - 1][..i] == pieces[..i];
    }
  }

  /** The bytes of the remaining pieces. */
  lemma {:induction false} ConcatSplit(pieces: seq<string>, i: nat) returns (t: string)
    requires i <= |pieces|
    ensures Concat(pieces) == Concat(pieces[..i]) + t
    ensures t == [] && (forall j | 0 <= j < |pieces| :: pieces[j] != []) ==> i == |pieces|
  {
    var n := |pieces|;
    if i == n {
      assert pieces[..i] == pieces;
      t := [];
      assert Concat(pieces) == Concat(pieces) + t;
    } else {
      var u := ConcatSplit(pieces[..n - 1], i);
      assert pieces[..n - 1][..i] == pieces[..i];
      t := u + pieces[n - 1];
      Regroup(Concat(pieces[..i]), u, pieces[n - 1]);
    }
  }

  lemma ConcatNext(pieces: seq<string>, i: nat)
    requires i < |pieces|
    ensures Concat(pieces[..i + 1]) == Concat(pieces[..i]) + pieces[i]
    ensures Uncut(pieces[..i + 1]) <==> Uncut(pieces[..i]) && EndsWell(Concat(pieces[..i + 1]))
  {
    assert pieces[..i + 1][..i] == pieces[..i];
  }

  /** The bytes behind piece `i`, and what an answer to that piece needs to know of them. */
  lemma AtPiece(pieces: seq<string>, i: nat) returns (t: string)
    requires i < |pieces| && forall j | 0 <= j < |pieces| :: pieces[j] != []
    ensures Concat(pieces[..i + 1]) == Concat(pieces[..i]) + pieces[i]
    ensures Concat(pieces) == Concat(pieces[..i + 1]) + t
    ensures Uncut(pieces[..i + 1]) <==> Uncut(pieces[..i]) && EndsWell(Concat(pieces[..i + 1]))
    ensures Uncut(pieces) ==> Uncut(pieces[..i])
    ensures t == [] ==> pieces[..i + 1] == pieces
  {
    t := ConcatSplit(pieces, i + 1);
    ConcatNext(pieces, i);
    if Uncut(pieces) { UncutPrefix(pieces, i); }
  }
}
