/**
 The response side of `http_conn`: process_write prints the header into a fixed buffer and
 sets up the two buffers of writev, write sends them over any number of calls.
 */
module ResponseSender {
  import opened Text
  import RequestGrammar
  import opened ResponseText
  import opened ResponseReader
  import opened Delivery
  import opened Wrappers

  /** An answer of writev: bytes accepted, EAGAIN, or another error. */
  datatype Answer = Accepted(n: nat) | Again | Failed

  /** What the event of the connection is set to. */
  datatype Armed = ForReading | ForWriting | NotArmed

  /** The counts that writev returns before it answers anything else. */
  function Counts(script: seq<Answer>): seq<nat> {
    if script == [] || !script[0].Accepted? then [] else [script[0].n] + Counts(script[1..])
  }

  /** The first other answer is an error; after the last answer comes EAGAIN. */
  predicate Fails(script: seq<Answer>) {
    script != [] && (script[0].Failed? || (script[0].Accepted? && Fails(script[1..])))
  }

  /** With the first answer that is no count at `k`: that one alone makes the call fail or wait. */
  lemma {:induction false} FailsAt(script: seq<Answer>, k: nat)
    requires k <= |script| && (forall i | 0 <= i < k :: script[i].Accepted?) && (k < |script| ==> !script[k].Accepted?)
    ensures Fails(script) <==> k < |script| && script[k] == Failed
    ensures |Counts(script)| == k && forall i | 0 <= i < k :: Counts(script)[i] == script[i].n
  {
    if k > 0 { FailsAt(script[1..], k - 1); }
  }

  /** The counter of bytes to be sent is an int. */
  lemma FileStarted(w: nat, f: nat, out: seq<Source>)
    requires w > 0
    ensures Exact(State(Iov(0, w), Iov(0, f), 2, 0, ToInt(w + f), out), w, f) <==> w + f <= INT_MAX
  {
    ToIntRange(w + f);
  }

  /** The writes of one call: the counter is looked at only behind each of them. */
  function WriteAll(s: State, w: nat, ns: seq<nat>): State
    requires Sized(s)
  {
    if ns == [] then s
    else
      var t := Sent(s, w, ns[0]);
      if t.left <= 0 then t else SendAll(t, w, ns[1..])
  }

  lemma WriteAllIsSendAll(s: State, w: nat, ns: seq<nat>)
    requires Sized(s) && s.left > 0
    ensures WriteAll(s, w, ns) == SendAll(s, w, ns)
  {
  }

  class HttpConn {
    var writeBuf: array<char>
    var writeIdx: nat
    var linger: bool
    var bytesToSend: int
    var bytesHaveSend: int
    var iv0: Iov      // base is an offset in writeBuf
    var iv1: Iov      // base is an offset in the mapped file
    var ivCount: nat
    ghost var out: seq<Source>   // sent for this response

    ghost predicate Valid()
      reads this
    {
      writeBuf.Length == WRITE_BUFFER_SIZE && writeIdx <= WRITE_BUFFER_SIZE
    }

    /** As init leaves the connection. */
    ghost predicate Fresh()
      reads this
    {
      Valid() && writeIdx == 0 && bytesToSend == 0 && bytesHaveSend == 0
    }

    ghost function Text(): string
      requires Valid()
      reads this, writeBuf
    {
      writeBuf[..writeIdx]
    }

    ghost function Progress(): State
      reads this
    {
      State(iv0, iv1, ivCount, bytesHaveSend, bytesToSend, out)
    }

    /** vsnprintf of `text`, which it cuts so that it and its NUL fit in `size` bytes. */
    method PrintAt(at: nat, size: nat, text: string)
      requires Valid() && at + size <= WRITE_BUFFER_SIZE
      modifies writeBuf
      ensures writeBuf[..at] == old(writeBuf[..at])
      ensures |text| < size ==> writeBuf[..at + |text|] == old(writeBuf[..at]) + text
    {
      if size > 0 {
        var n := if |text| < size then |text| else size - 1;
        forall j | 0 <= j < n {
          writeBuf[at + j] := text[j];
        }
        writeBuf[at + n] := NUL;
      }
    }

    /** add_response, for a format that prints `text`. */
    method AddResponse(text: string) returns (ok: bool)
      requires Valid()
      modifies this`writeIdx, writeBuf
      ensures Valid() && (ok <==> old(writeIdx) + |text| < 1023)
      ensures Text() == if ok then old(Text()) + text else old(Text())
    {
      if writeIdx >= WRITE_BUFFER_SIZE {
        return false;
      }
      PrintAt(writeIdx, WRITE_BUFFER_SIZE - 1 - writeIdx, text);
      if |text| >= WRITE_BUFFER_SIZE - 1 - writeIdx {
        return false;
      }
      writeIdx := writeIdx + |text|;
      return true;
    }

    method AddHeaders(length: int)
      requires Valid()
      modifies this`writeIdx, writeBuf
      ensures Valid() && Text() == HeadersAdded(old(Text()), length, linger)
    {
      var ok := AddResponse(LengthLine(length));
      if ok {
        ok := AddResponse(LingerLine(linger));
      }
      if ok {
        ok := AddResponse(CRLF);
      }
    }

    /** The status line and the headers, whose results process_write does not look at. */
    method AddHead(status: int, title: string, length: int)
      requires Valid()
      modifies this`writeIdx, writeBuf
      ensures Valid() && Text() == HeadAdded(old(Text()), status, title, length, linger)
    {
      var ok := AddResponse(StatusLine(status, title));
      AddHeaders(length);
    }

    /** The header and a form. */
    method AddForm(status: int, title: string, form: string) returns (ok: bool)
      requires Valid()
      modifies this`writeIdx, writeBuf
      ensures Valid() && (ok <==> Fits(HeadAdded(old(Text()), status, title, |form|, linger), form))
      ensures Text() == Added(HeadAdded(old(Text()), status, title, |form|, linger), form)
    {
      AddHead(status, title, |form|);
      ok := AddResponse(form);
    }

    /** The case of a file that is not empty. */
    method RespondFile(fileSize: nat)
      requires Valid()
      modifies this`writeIdx, this`iv0, this`iv1, this`ivCount, this`bytesToSend, writeBuf
      ensures Valid() && Text() == HeadAdded(old(Text()), 200, OK_TITLE, ToInt(fileSize), linger)
      ensures iv0 == Iov(0, writeIdx) && iv1 == Iov(0, fileSize) && ivCount == 2
      ensures bytesToSend == ToInt(writeIdx + fileSize)
    {
      AddHead(200, OK_TITLE, ToInt(fileSize));
      iv0 := Iov(0, writeIdx);
      iv1 := Iov(0, fileSize);
      ivCount := 2;
      bytesToSend := ToInt(writeIdx + fileSize);
    }

    /** The cases of a result with a form of its own. */
    method RespondForm(r: Result) returns (ok: bool)
      requires Valid()
      modifies this`writeIdx, this`iv0, this`ivCount, this`bytesToSend, writeBuf
      ensures Valid()
      ensures ok <==> Fits(HeadAdded(old(Text()), StatusOf(r), TitleOf(r), |FormOf(r)|, linger), FormOf(r))
      ensures Text() == Added(HeadAdded(old(Text()), StatusOf(r), TitleOf(r), |FormOf(r)|, linger), FormOf(r))
      ensures if ok then iv0 == Iov(0, writeIdx) && ivCount == 1 && bytesToSend == writeIdx
              else iv0 == old(iv0) && ivCount == old(ivCount) && bytesToSend == old(bytesToSend)
    {
      ok := AddForm(StatusOf(r), TitleOf(r), FormOf(r));
      if !ok {
        return;
      }
      iv0 := Iov(0, writeIdx);
      ivCount := 1;
      bytesToSend := writeIdx;
    }

    /** What process_write leaves, when `before` was in the buffer. */
    ghost predicate Responded(ok: bool, r: Result, fileSize: nat, before: string)
      requires Valid()
      reads this, writeBuf
    {
      if r.OtherResult? then !ok && Text() == before
      else if r.FileFound? && fileSize > 0 then
        && ok && Text() == HeadAdded(before, 200, OK_TITLE, ToInt(fileSize), linger)
        && iv0 == Iov(0, writeIdx) && iv1 == Iov(0, fileSize) && ivCount == 2
        && bytesToSend == ToInt(writeIdx + fileSize)
      else
        var head := HeadAdded(before, StatusOf(r), TitleOf(r), |FormOf(r)|, linger);
        && Text() == Added(head, FormOf(r)) && (ok <==> !r.FileFound? && Fits(head, FormOf(r)))
        && (ok ==> iv0 == Iov(0, writeIdx) && ivCount == 1 && bytesToSend == writeIdx)
    }

    /** process_write's cases. */
    method Respond(r: Result, fileSize: nat) returns (ok: bool)
      requires Valid()
      modifies this`writeIdx, this`iv0, this`iv1, this`ivCount, this`bytesToSend, writeBuf
      ensures Valid() && Responded(ok, r, fileSize, old(Text())) && (!ok ==> bytesToSend == old(bytesToSend))
    {
      match r
      case OtherResult =>
        return false;
      case FileFound =>
        if fileSize != 0 {
          RespondFile(fileSize);
          return true;
        }
        ok := AddForm(200, OK_TITLE, EMPTY_PAGE);
        return false;
      case _ =>
        ok := RespondForm(r);
    }

    lemma BufferGrows(ok: bool, r: Result, fileSize: nat, before: string)
      requires Valid() && Responded(ok, r, fileSize, before)
      ensures before <= Text()
    {
      HeadAddedGrows(before, 200, OK_TITLE, ToInt(fileSize), linger);
      HeadAddedGrows(before, StatusOf(r), TitleOf(r), |FormOf(r)|, linger);
    }

    /** What a response is that starts in an empty buffer. */
    ghost predicate Framed(ok: bool, r: Result, fileSize: nat)
      requires Valid()
      reads this, writeBuf
    {
      && (ok <==> !r.OtherResult? && (r.FileFound? ==> fileSize > 0))
      && (ok ==> 0 < writeIdx < WRITE_BUFFER_SIZE - 1)
      && (ok && r.FileFound? ==>
            && Text() == HeadText(200, OK_TITLE, ToInt(fileSize), linger)
            && (writeIdx + fileSize <= INT_MAX <==> Exact(Progress(), writeIdx, fileSize)))
      && (ok && !r.FileFound? ==>
            && Text() == HeadText(StatusOf(r), TitleOf(r), |FormOf(r)|, linger) + FormOf(r)
            && Exact(Progress(), writeIdx, 0))
    }

    lemma FramedFile(fileSize: nat)
      requires Valid() && bytesHaveSend == 0 && fileSize > 0 && Responded(true, FileFound, fileSize, [])
      ensures Framed(true, FileFound, fileSize)
    {
      assert Text() == HeadText(200, OK_TITLE, ToInt(fileSize), linger) && 0 < writeIdx < WRITE_BUFFER_SIZE - 1 by {
        ToIntRange(fileSize);
        FreshFile(ToInt(fileSize), linger);
      }
      FileStarted(writeIdx, fileSize, out);
    }

    lemma FramedForm(ok: bool, r: Result, fileSize: nat)
      requires Valid() && bytesHaveSend == 0 && !(r.FileFound? && fileSize > 0) && Responded(ok, r, fileSize, [])
      ensures Framed(ok, r, fileSize)
    {
      FreshForm(r, linger);
    }

    /** On the counters of an earlier response. */
    lemma BecomesStale(r: Result, fileSize: nat, before: string)
      requires Valid() && before != [] && before <= Text() && Responded(true, r, fileSize, before)
      requires 0 < bytesHaveSend && writeIdx + fileSize <= INT_MAX
      ensures Stale(Progress(), writeIdx, if r.FileFound? then fileSize else 0)
    {
    }

    /**
     process_write, in whatever state the connection is. A file of no bytes gets a whole page
     into the buffer, and then falls through to the case that gives up. What was in the buffer
     stays in front; from a fresh state the response is framed right, and on the counters of an
     earlier one it is stale.
     */
    method ProcessWrite(r: Result, fileSize: nat) returns (ok: bool)
      requires Valid()
      modifies this, writeBuf
      ensures Valid() && writeBuf == old(writeBuf) && linger == old(linger)
      ensures bytesHaveSend == old(bytesHaveSend) && out == [] && (!ok ==> bytesToSend == old(bytesToSend))
      ensures Responded(ok, r, fileSize, old(Text())) && old(Text()) <= Text()
      ensures old(Fresh()) ==> Framed(ok, r, fileSize)
      ensures old(Fresh()) && ok && !r.FileFound? ==> ReadReply(Text()) == Meant(r, linger)
      ensures ok && 0 < old(writeIdx) && 0 < old(bytesHaveSend) && writeIdx + fileSize <= INT_MAX ==>
                Stale(Progress(), writeIdx, if r.FileFound? then fileSize else 0)
    {
      ghost var before, isFresh := Text(), Fresh();
      out := [];
      ok := Respond(r, fileSize);
      BufferGrows(ok, r, fileSize, before);
      if isFresh {
        if r.FileFound? && fileSize > 0 { FramedFile(fileSize); } else { FramedForm(ok, r, fileSize); }
        if ok && !r.FileFound? { ErrorsAsMeant(r, linger, Text()); }
      } else if ok && before != [] && 0 < bytesHaveSend && writeIdx + fileSize <= INT_MAX {
        BecomesStale(r, fileSize, before);
      }
    }

    /** init, as far as it concerns the response; the buffers of writev keep their old values. */
    method Init()
      requires writeBuf.Length == WRITE_BUFFER_SIZE
      modifies this`bytesToSend, this`bytesHaveSend, this`linger, this`writeIdx, writeBuf
      ensures Fresh() && !linger && forall j | 0 <= j < WRITE_BUFFER_SIZE :: writeBuf[j] == NUL
    {
      bytesToSend := 0;
      bytesHaveSend := 0;
      linger := false;
      writeIdx := 0;
      forall j | 0 <= j < WRITE_BUFFER_SIZE {
        writeBuf[j] := NUL;
      }
    }

    /** A successful writev and the bookkeeping behind it. */
    method SendSome(n: nat)
      requires Sized(Progress())
      modifies this`bytesToSend, this`bytesHaveSend, this`iv0, this`iv1, this`out
      ensures Progress() == Sent(old(Progress()), writeIdx, n)
    {
      var total := iv0.len + if ivCount == 2 then iv1.len else 0;
      var m := if n <= total then n else total;
      out := out + Queued(Progress())[..m];
      bytesHaveSend := bytesHaveSend + m;
      bytesToSend := bytesToSend - m;
      if bytesHaveSend >= iv0.len {
        iv0 := iv0.(len := 0);
        iv1 := Iov(bytesHaveSend - writeIdx, bytesToSend);
      } else {
        iv0 := Iov(bytesHaveSend, iv0.len - bytesHaveSend);
      }
    }

    /** write, when writev gives the answers of `script` and EAGAIN after them. */
    method Write(script: seq<Answer>) returns (keep: bool, armed: Armed)
      requires Valid() && Sized(Progress())
      modifies this, writeBuf
      ensures old(bytesToSend) == 0 ==> keep && armed == ForReading && Fresh() && out == old(out)
      ensures old(bytesToSend) != 0 ==>
                var done := WriteAll(old(Progress()), old(writeIdx), Counts(script));
                if Counts(script) != [] && done.left <= 0 then
                  keep == old(linger) && armed == ForReading && out == done.out && (keep ==> Fresh())
                else
                  && Progress() == done && writeIdx == old(writeIdx) && linger == old(linger)
                  && writeBuf == old(writeBuf) && writeBuf[..] == old(writeBuf[..])
                  && keep == !Fails(script) && armed == if Fails(script) then NotArmed else ForWriting
    {
      if bytesToSend == 0 {
        Init();
        return true, ForReading;
      }
      ghost var s, w := Progress(), writeIdx;
      var i := 0;
      assert script[0..] == script;
      while i < |script| && script[i].Accepted?
        invariant i <= |script| && Valid() && writeIdx == w && linger == old(linger)
        invariant writeBuf == old(writeBuf) && writeBuf[..] == old(writeBuf[..])
        invariant Sized(Progress()) && (if i > 0 then bytesToSend > 0 && script[0].Accepted? else Progress() == s)
        invariant WriteAll(s, w, Counts(script)) == WriteAll(Progress(), w, Counts(script[i..]))
        invariant Fails(script) == Fails(script[i..])
        decreases |script| - i
      {
        assert script[i..][1..] == script[i + 1..];
        SendSome(script[i].n);
        i := i + 1;
        if bytesToSend > 0 { WriteAllIsSendAll(Progress(), w, Counts(script[i..])); }
        if bytesToSend <= 0 {
          if linger {
            Init();
            return true, ForReading;
          }
          return false, ForReading;
        }
      }
      if i < |script| && script[i].Failed? {
        return false, NotArmed;
      }
      return true, ForWriting;
    }
  }

  // ---------- from the positions to the bytes ----------

  predicate Inside(m: seq<Source>, header: string, file: string) {
    forall k | 0 <= k < |m| :: match m[k] case Head(i) => 0 <= i < |header| case File(i) => 0 <= i < |file|
  }

  function BytesOf(m: seq<Source>, header: string, file: string): string
    requires Inside(m, header, file)
  {
    seq(|m|, k requires 0 <= k < |m| => match m[k] case Head(i) => header[i] case File(i) => file[i])
  }

  lemma BytesOfMessage(m: seq<Source>, header: string, file: string)
    requires m == Message(|header|, |file|)
    ensures Inside(m, header, file) && BytesOf(m, header, file) == header + file
  {
  }

  /** The client, who gets the bytes of the positions sent, reads `reply`. */
  predicate ClientReads(s: State, header: string, file: string, ns: seq<nat>, reply: Reply)
    requires Sized(s)
  {
    var out := SendAll(s, |header|, ns).out;
    Inside(out, header, file) && ReadReply(BytesOf(out, header, file)) == reply
  }

  lemma ReadsWhole(s: State, header: string, file: string, ns: seq<nat>, reply: Reply)
    requires Sized(s) && SentWhole(s, |header|, |file|, ns) && ReadReply(header + file) == reply
    ensures ClientReads(s, header, file, ns, reply)
  {
    BytesOfMessage(SendAll(s, |header|, ns).out, header, file);
  }

  /** process_write has just set up a response of this header and file. */
  predicate Ready(s: State, header: string, file: string) {
    Exact(s, |header|, |file|) && s.have == 0 && s.out == []
  }

  /**
   Main result on a file: what a finished run has sent is the response, position for position,
   if and only if its header was cut once at most; the client then reads all of the file,
   behind a Content-Length that is its size.
   */
  lemma ClientGetsFile(s: State, header: string, linger: bool, file: string, ns: seq<nat>)
    requires header == HeadText(200, OK_TITLE, ToInt(|file|), linger) && |header| + |file| <= INT_MAX
    requires Ready(s, header, file) && SendAll(s, |header|, ns).left <= 0
    ensures SentWhole(s, |header|, |file|, ns) <==> CutOnce(|header|, |file|, ns)
    ensures CutOnce(|header|, |file|, ns) ==>
              ClientReads(s, header, file, ns, Reply("HTTP/1.1", 200, "OK", Some(|file|), linger, file))
  {
    DeliversIffCutOnce(s, |header|, |file|, ns);
    if CutOnce(|header|, |file|, ns) {
      AnnouncesFileSize(|file|, linger, file);
      ToIntRange(|file|);
      ReadsWhole(s, header, file, ns, Reply("HTTP/1.1", 200, "OK", Some(|file|), linger, file));
    }
  }

  /** The same for a result with a form of its own, which the client reads as it is meant. */
  lemma ClientGetsForm(s: State, message: string, r: Result, linger: bool, ns: seq<nat>)
    requires Meant(r, linger).Reply?
    requires message == HeadText(StatusOf(r), TitleOf(r), |FormOf(r)|, linger) + FormOf(r)
    requires Ready(s, message, []) && SendAll(s, |message|, ns).left <= 0
    ensures SentWhole(s, |message|, 0, ns) <==> CutOnce(|message|, 0, ns)
    ensures CutOnce(|message|, 0, ns) ==> ClientReads(s, message, [], ns, Meant(r, linger))
  {
    DeliversIffCutOnce(s, |message|, 0, ns);
    if CutOnce(|message|, 0, ns) {
      ErrorsAsMeant(r, linger, message);
      RequestGrammar.AppendNothing(message);
      ReadsWhole(s, message, [], ns, Meant(r, linger));
    }
  }

  lemma RereadText(message: string, file: string, status: int, title: string, length: int, linger: bool, more: string)
    requires message == HeadText(status, title, length, linger) + more
    requires Reason(title) && 0 <= status <= INT_MAX && -INT_MAX - 1 <= length <= INT_MAX
    ensures ReadReply(message + file) == Reply("HTTP/1.1", status, title, Some(length), linger, more + file)
  {
    RequestGrammar.Regroup(HeadText(status, title, length, linger), more, file);
    HeaderReadsBack(status, title, length, linger, more + file);
  }

  /**
   A response without init before it: `message` is the header that is still in the buffer and
   what was printed behind it. What a finished run has sent is right if and only if it went out at
   once, and then the client reads the old header again, and all that is new as its body.
   */
  lemma ClientRereads(s: State, message: string, file: string, status: int, title: string, length: int, linger: bool,
                      more: string, ns: seq<nat>)
    requires message == HeadText(status, title, length, linger) + more
    requires Reason(title) && 0 <= status <= INT_MAX && -INT_MAX - 1 <= length <= INT_MAX
    requires Stale(s, |message|, |file|) && s.out == [] && ns != [] && SendAll(s, |message|, ns).left <= 0
    ensures SentWhole(s, |message|, |file|, ns) <==> ns[0] >= |message| + |file|
    ensures ns[0] >= |message| + |file| ==>
              ClientReads(s, message, file, ns, Reply("HTTP/1.1", status, title, Some(length), linger, more + file))
  {
    StaleInOnePiece(s, |message|, |file|, ns);
    if ns[0] >= |message| + |file| {
      RereadText(message, file, status, title, length, linger, more);
      ReadsWhole(s, message, file, ns, Reply("HTTP/1.1", status, title, Some(length), linger, more + file));
    }
  }
}
