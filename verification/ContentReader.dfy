/** process_read in the content state, on a body that arrives in pieces. */
module ContentReader {
  import opened Text
  import opened LineScanner

  /**
   `DoRequest` stands for the call of do_request; `Fault` for a write outside the buffer;
   `Disturbed` for a load of the shared header offset that found another worker's length.
   */
  datatype HttpCode = NoRequest | BadRequest | DoRequest | Fault | Disturbed

  /** What process_read leaves in the content state; `text` is where the body was taken to start. */
  datatype ContentResult = ContentResult(code: HttpCode, buf: string, start: nat, checked: nat, text: nat)

  /**
   process_read in the content state. When the body is not complete the loop condition runs
   parse_line over its bytes and so moves `m_checked_idx`.
   */
  function ContentRun(b: string, start: nat, checked: nat, read: nat, length: int): (res: ContentResult)
    requires start <= checked <= read <= |b|
    ensures |res.buf| == |b| && res.start <= res.checked <= read && res.checked >= checked
    ensures res.code in {NoRequest, DoRequest, Fault}
    decreases read - checked
  {
    if length + checked > INT_MAX then ContentResult(Fault, b, checked, checked, start)
    else if read >= length + checked then
      if 0 <= start + length < |b| then
        ContentResult(DoRequest, b[start + length := NUL], checked, checked, start)
      else ContentResult(Fault, b, checked, checked, start)
    else
      ScanBounds(b, checked, read);
      var line := Scan(b, checked, read);
      if line.status == LineOk then ContentRun(line.buf, checked, line.checked, read, length)
      else ContentResult(NoRequest, line.buf, checked, line.checked, start)
  }

  /** The bytes of a body that has arrived so far make parse_line stop where it starts. */
  predicate Stays(body: string) {
    body == [] || body[0] == LF || (body[0] == CR && !(|body| >= 2 && body[1] == LF))
  }

  /** parse_line over the first bytes of a body moves unless these stop it at once. */
  lemma ScanOfBody(b: string, pos: nat, have: nat)
    requires 0 < pos && pos + have <= |b| && b[pos - 1] != CR
    ensures var line := Scan(b, pos, pos + have);
            if Stays(b[pos..pos + have]) then line.status != LineOk && line.checked == pos && line.buf == b
            else line.checked > pos
  {
    var body := b[pos..pos + have];
    if have > 0 { assert body[0] == b[pos]; }
    if have > 1 { assert body[1] == b[pos + 1]; }
  }

  /** An incomplete body issues nothing. */
  lemma FirstContentCall(b: string, pos: nat, have: nat, length: int)
    requires 0 < pos && pos + have <= |b| && have < length && length + pos + have <= INT_MAX && b[pos - 1] != CR
    ensures ContentRun(b, pos, pos, pos + have, length).code == NoRequest
  {
    var line := Scan(b, pos, pos + have);
    ScanBounds(b, pos, pos + have);
    if line.status == LineOk {
      MovedNeverCompletes(line.buf, pos, line.checked, pos + have, length, pos);
    }
  }

  /** Once `m_checked_idx` is past the start of the body, the body's own bytes never complete it. */
  lemma {:induction false} MovedNeverCompletes(b: string, start: nat, checked: nat, read: nat, length: int, pos: nat)
    requires start <= checked <= read <= |b| && pos < checked && read <= pos + length && length + read <= INT_MAX
    ensures ContentRun(b, start, checked, read, length).code == NoRequest
    decreases read - checked
  {
    ScanBounds(b, checked, read);
    var line := Scan(b, checked, read);
    if line.status == LineOk {
      MovedNeverCompletes(line.buf, checked, line.checked, read, length, pos);
    }
  }

  /** A call issues the request at its first turn or not at all, on the text at `m_start_line`. */
  lemma {:induction false} TextStarts(b: string, start: nat, checked: nat, read: nat, length: int)
    requires start <= checked <= read <= |b|
    ensures var res := ContentRun(b, start, checked, read, length);
            && (res.code == DoRequest ==> res.text == start && length + checked <= read)
            && (0 <= length <= read - checked && read <= INT_MAX ==>
                  res.code == if start + length < |b| then DoRequest else Fault)
            && (res.code == NoRequest ==> res.start >= checked && (res.start == checked ==> res.buf == b))
    decreases read - checked
  {
    ScanBounds(b, checked, read);
    var line := Scan(b, checked, read);
    if line.status == LineOk && length + checked <= INT_MAX && read < length + checked {
      TextStarts(line.buf, checked, line.checked, read, length);
    }
  }

  /** A body that starts at `pos` and is all there. */
  lemma WholeBody(b: string, pos: nat, have: nat, length: int)
    requires pos + have <= |b| <= INT_MAX && 0 < length <= have && pos + length < |b|
    ensures ContentRun(b, pos, pos, pos + have, length) ==
            ContentResult(DoRequest, b[pos + length := NUL], pos, pos, pos)
  {
  }

  /** When the call issues nothing, it shows whether the bytes so far made parse_line move. */
  lemma UnfinishedBody(b: string, pos: nat, have: nat, length: int)
    requires 0 < pos && pos + have <= |b| && b[pos - 1] != CR
    requires ContentRun(b, pos, pos, pos + have, length).code == NoRequest
    ensures var res := ContentRun(b, pos, pos, pos + have, length);
            have < length && if Stays(b[pos..pos + have]) then res == ContentResult(NoRequest, b, pos, pos, pos)
            else pos < res.checked
  {
    ScanOfBody(b, pos, have);
  }

  /** The result of the first call in the content: the stream has come to the body at `pos`. */
  predicate FirstAnswer(res: ContentResult, b: string, stream: string, pos: nat, length: int)
    requires pos <= |stream| <= |b|
  {
    var have := |stream| - pos;
    && (0 < length <= have && pos + length < |b| ==>
          res == ContentResult(DoRequest, b[pos + length := NUL], pos, pos, pos) &&
          res.buf[pos..pos + length] == stream[pos..pos + length])
    && (0 < length <= have && pos + length >= |b| ==> res.code == Fault)
    && (have < length && length + |stream| <= INT_MAX ==> res.code == NoRequest)
    && (res.code == NoRequest ==>
          have < length &&
          if Stays(stream[pos..]) then res == ContentResult(NoRequest, b, pos, pos, pos) else pos < res.checked)
    && (res.code == NoRequest ==> pos <= res.start && (res.start == pos ==> res.buf == b))
    && (res.code == DoRequest ==> length <= have)
  }

  lemma BodyCall(b: string, stream: string, pos: nat, length: int)
    requires 0 < pos <= |stream| && Untouched(stream, b, pos) && b[pos - 1] == NUL && |b| <= INT_MAX
    ensures FirstAnswer(ContentRun(b, pos, pos, |stream|, length), b, stream, pos, length)
  {
    var have := |stream| - pos;
    assert b[pos..pos + have] == stream[pos..];
    FirstAnswered(b, b[pos..pos + have], pos, have, length);
    if 0 < length <= have && pos + length < |b| { BodyCopied(b, stream, pos, length); }
  }

  lemma BodyCopied(b: string, stream: string, pos: nat, length: nat)
    requires pos + length <= |stream| && pos + length < |b| && Untouched(stream, b, pos)
    ensures b[pos + length := NUL][pos..pos + length] == stream[pos..pos + length]
  {
  }

  /** The same, on what the buffer holds of the body. */
  lemma FirstAnswered(b: string, body: string, pos: nat, have: nat, length: int)
    requires 0 < pos && pos + have <= |b| <= INT_MAX && b[pos - 1] == NUL && body == b[pos..pos + have]
    ensures var res := ContentRun(b, pos, pos, pos + have, length);
            && (0 < length <= have && pos + length < |b| ==>
                  res == ContentResult(DoRequest, b[pos + length := NUL], pos, pos, pos))
            && (have < length && length + pos + have <= INT_MAX ==> res.code == NoRequest)
            && (0 < length <= have && pos + length >= |b| ==> res.code == Fault)
            && (res.code == NoRequest ==>
                  have < length &&
                  if Stays(body) then res == ContentResult(NoRequest, b, pos, pos, pos) else pos < res.checked)
            && (res.code == NoRequest ==> pos <= res.start && (res.start == pos ==> res.buf == b))
            && (res.code == DoRequest ==> length <= have)
  {
    if length <= have {
      FirstComplete(b, pos, have, length);
    } else {
      FirstIncomplete(b, pos, have, length);
    }
  }

  lemma FirstComplete(b: string, pos: nat, have: nat, length: int)
    requires pos + have <= |b| <= INT_MAX && length <= have
    ensures var res := ContentRun(b, pos, pos, pos + have, length);
            && (0 < length && pos + length < |b| ==>
                  res == ContentResult(DoRequest, b[pos + length := NUL], pos, pos, pos))
            && (0 < length && pos + length >= |b| ==> res.code == Fault) && res.code != NoRequest
  {
  }

  lemma FirstIncomplete(b: string, pos: nat, have: nat, length: int)
    requires 0 < pos && pos + have <= |b| <= INT_MAX && b[pos - 1] == NUL && have < length
    ensures var res := ContentRun(b, pos, pos, pos + have, length);
            && (length + pos + have <= INT_MAX ==> res.code == NoRequest) && res.code != DoRequest
            && (res.code == NoRequest ==>
                  if Stays(b[pos..pos + have]) then res == ContentResult(NoRequest, b, pos, pos, pos) else pos < res.checked)
            && (res.code == NoRequest ==> pos <= res.start && (res.start == pos ==> res.buf == b))
  {
    var res := ContentRun(b, pos, pos, pos + have, length);
    assert (res.code == DoRequest ==> length + pos <= pos + have) &&
           (res.code == NoRequest ==> pos <= res.start && (res.start == pos ==> res.buf == b)) by {
      TextStarts(b, pos, pos, pos + have, length);
    }
    if length + pos + have <= INT_MAX {
      assert res.code == NoRequest by { FirstContentCall(b, pos, have, length); }
    }
    if res.code == NoRequest { UnfinishedBody(b, pos, have, length); }
  }

  /** The values of `m_read_idx` at successive calls. */
  predicate Growing(from: nat, ends: seq<nat>, limit: nat)
    decreases |ends|
  {
    ends == [] || (from <= ends[0] <= limit && Growing(ends[0], ends[1..], limit))
  }

  lemma GrowingEarlier(from: nat, earlier: nat, ends: seq<nat>, limit: nat)
    requires Growing(from, ends, limit) && earlier <= from
    ensures Growing(earlier, ends, limit)
  {
  }

  /** The calls of process_read in the content state, after reads that end at `ends[0]`, `ends[1]`, ... */
  function ContentCalls(b: string, start: nat, checked: nat, length: int, ends: seq<nat>): HttpCode
    requires start <= checked && Growing(checked, ends, |b|)
    decreases |ends|
  {
    if ends == [] then NoRequest
    else
      var res := ContentRun(b, start, checked, ends[0], length);
      GrowingEarlier(ends[0], res.checked, ends[1..], |b|);
      if res.code != NoRequest then res.code
      else ContentCalls(res.buf, res.start, res.checked, length, ends[1..])
  }

  /** A body that ends at `end` and is complete with the last read only. */
  predicate Pieces(from: nat, ends: seq<nat>, end: nat)
    decreases |ends|
  {
    if |ends| <= 1 then ends == [end] && from <= end
    else from <= ends[0] < end && Pieces(ends[0], ends[1..], end)
  }

  /** Every piece but the last is one that stops parse_line where the body starts. */
  predicate AllStay(b: string, pos: nat, ends: seq<nat>)
    requires pos <= |b| && Growing(pos, ends, |b|)
    decreases |ends|
  {
    if |ends| <= 1 then true
    else
      GrowingEarlier(ends[0], pos, ends[1..], |b|);
      Stays(b[pos..ends[0]]) && AllStay(b, pos, ends[1..])
  }

  lemma {:induction false} PiecesGrow(from: nat, ends: seq<nat>, end: nat, limit: nat)
    requires Pieces(from, ends, end) && end <= limit
    ensures Growing(from, ends, limit) && Growing(from, ends, end)
    decreases |ends|
  {
    if |ends| > 1 { PiecesGrow(ends[0], ends[1..], end, limit); }
  }

  lemma {:induction false} MovedCallsNeverComplete(b: string, start: nat, checked: nat, pos: nat, length: nat, ends: seq<nat>)
    requires start <= checked && pos < checked && pos + length <= |b| && |b| + length <= INT_MAX
    requires Growing(checked, ends, pos + length) && Growing(checked, ends, |b|)
    ensures ContentCalls(b, start, checked, length, ends) == NoRequest
    decreases |ends|
  {
    if ends != [] {
      MovedNeverCompletes(b, start, checked, ends[0], length, pos);
      var res := ContentRun(b, start, checked, ends[0], length);
      GrowingEarlier(ends[0], res.checked, ends[1..], |b|);
      GrowingEarlier(ends[0], res.checked, ends[1..], pos + length);
      MovedCallsNeverComplete(res.buf, res.start, res.checked, pos, length, ends[1..]);
    }
  }

  lemma PiecesEarlier(from: nat, earlier: nat, ends: seq<nat>, end: nat)
    requires Pieces(from, ends, end) && earlier <= from
    ensures Pieces(earlier, ends, end)
  {
  }

  /** A piece that leaves parse_line where the body starts. */
  lemma StayingPiece(b: string, pos: nat, length: nat, ends: seq<nat>)
    requires 0 < pos && pos + length <= |b| && b[pos - 1] != CR && 2 * |b| <= INT_MAX
    requires |ends| > 1 && Pieces(pos, ends, pos + length) && Growing(pos, ends, |b|) && Stays(b[pos..ends[0]])
    ensures Growing(pos, ends[1..], |b|) && Pieces(pos, ends[1..], pos + length)
    ensures ContentCalls(b, pos, pos, length, ends) == ContentCalls(b, pos, pos, length, ends[1..])
  {
    PieceRun(b, pos, ends[0] - pos, length);
    GrowingEarlier(ends[0], pos, ends[1..], |b|);
    PiecesEarlier(ends[0], pos, ends[1..], pos + length);
  }

  /** A piece that lets it move. */
  lemma MovingPiece(b: string, pos: nat, length: nat, ends: seq<nat>)
    requires 0 < pos && pos + length <= |b| && b[pos - 1] != CR && 2 * |b| <= INT_MAX
    requires |ends| > 1 && Pieces(pos, ends, pos + length) && Growing(pos, ends, |b|) && !Stays(b[pos..ends[0]])
    ensures ContentCalls(b, pos, pos, length, ends) == NoRequest
  {
    var res := ContentRun(b, pos, pos, ends[0], length);
    var later := ends[1..];
    assert res.code == NoRequest && pos < res.checked by { PieceRun(b, pos, ends[0] - pos, length); }
    assert Growing(res.checked, later, |b|) && Growing(res.checked, later, pos + length) by {
      PiecesGrow(ends[0], later, pos + length, |b|);
      GrowingEarlier(ends[0], res.checked, later, |b|);
      GrowingEarlier(ends[0], res.checked, later, pos + length);
    }
    assert ContentCalls(b, pos, pos, length, ends) == ContentCalls(res.buf, res.start, res.checked, length, later);
    MovedCallsNeverComplete(res.buf, res.start, res.checked, pos, length, later);
  }

  /** What the call makes of `have` bytes, not all of the body. */
  lemma PieceRun(b: string, pos: nat, have: nat, length: int)
    requires 0 < pos && pos + have <= |b| && b[pos - 1] != CR && have < length && length + pos + have <= INT_MAX
    ensures var res := ContentRun(b, pos, pos, pos + have, length);
            && res.code == NoRequest
            && if Stays(b[pos..pos + have]) then res == ContentResult(NoRequest, b, pos, pos, pos) else pos < res.checked
  {
    FirstContentCall(b, pos, have, length);
    UnfinishedBody(b, pos, have, length);
  }

  /**
   Main result on a body that comes in pieces: the call after its last byte issues the request
   if and only if no earlier piece let parse_line move, that is, each ended before the body's
   first byte or found it to be an LF, or a CR with no LF behind it. With a body that ends with
   the buffer the call is a fault instead.
   */
  lemma {:induction false} BodyInPieces(b: string, pos: nat, length: nat, ends: seq<nat>)
    requires 0 < pos && pos + length <= |b| && b[pos - 1] != CR && 2 * |b| <= INT_MAX && length > 0
    requires Pieces(pos, ends, pos + length) && Growing(pos, ends, |b|)
    ensures ContentCalls(b, pos, pos, length, ends) == (if pos + length < |b| then DoRequest else Fault) <==>
            AllStay(b, pos, ends)
    decreases |ends|
  {
    if |ends| == 1 {
      assert ContentRun(b, pos, pos, ends[0], length).code == if pos + length < |b| then DoRequest else Fault;
    } else {
      if Stays(b[pos..ends[0]]) {
        StayingPiece(b, pos, length, ends);
        BodyInPieces(b, pos, length, ends[1..]);
      } else {
        MovingPiece(b, pos, length, ends);
      }
    }
  }

  /** A body of two bytes that comes one byte at a time is never handed on. */
  lemma CutBodyIsLost()
    ensures var b := [NUL, 'a', 'b', NUL];
            ContentCalls(b, 1, 1, 2, [2, 3]) == NoRequest && ContentCalls(b, 1, 1, 2, [3]) == DoRequest
  {
    var b, ends: seq<nat> := [NUL, 'a', 'b', NUL], [2, 3];
    assert ends[1..] == [3] && b[1..2] == ['a'];
    MovingPiece(b, 1, 2, ends);
  }

  /**
   A request with a body that has been issued, when init does not follow: whatever bytes come
   next, the same body is issued again at once.
   */
  lemma BodyIssuedAgain(b: string, c: string, pos: nat, have: nat, more: nat, length: nat)
    requires pos + have + more <= |b| <= INT_MAX && 0 < length <= have && pos + length < |b|
    requires ContentRun(b, pos, pos, pos + have, length).code == DoRequest
    requires SameOutside(ContentRun(b, pos, pos, pos + have, length).buf, c, pos + have, pos + have + more)
    ensures var again := ContentRun(c, pos, pos, pos + have + more, length);
            && again.code == DoRequest && again.text == again.start == again.checked == pos
            && again.buf[pos..pos + length] == b[pos..pos + length] && again.buf[pos + length] == NUL
  {
    WholeBody(b, pos, have, length);
    WholeBody(c, pos, have + more, length);
  }
}
