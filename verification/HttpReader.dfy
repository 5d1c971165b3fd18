/**
 The request side of `http_conn`: bytes arrive in pieces in a fixed buffer, and the two
 nested machines take them apart in place. Proved against RequestGrammar, which sees the
 whole stream at once.
 */
module HttpReader {
  import opened Text
  import opened RequestGrammar
  import opened RequestPrinter
  import opened LineScanner
  import opened ContentReader
  import opened Arrivals
  import opened HeaderOffset
  import opened Wrappers

  const READ_BUFFER_SIZE: nat := 2048

  lemma WordCut(b: string, u: nat, s: string)
    requires Holds(b, u, s) && FirstWord(s).Word?
    ensures var k := SepIndex(s);
            var c := b[u + k := NUL];
            && Holds(c, u, FirstWord(s).text) && |FirstWord(s).text| == k && Holds(c, u + k + 1, s[k + 1..])
            && FirstWord(s).rest == SkipSeps(s[k + 1..]) && SameOutside(b, c, u, u + |s|)
  {
    var k := SepIndex(s);
    HoldsCut(b, u, s, k);
    assert FirstWord(s) == Word(s[..k], SkipSeps(s[k + 1..]));
    OneChanged(b, u + k, u, u + |s|);
  }

  lemma OneChanged(b: string, i: nat, lo: int, hi: int)
    requires i < |b| && lo <= i < hi
    ensures SameOutside(b, b[i := NUL], lo, hi)
  {
  }

  class HttpConn {
    var readBuf: array<char>
    var readIdx: int
    var checkedIdx: nat
    var startLine: nat
    var checkState: Phase
    var method_: Method
    var cgi: bool
    var url: int       // indices into readBuf, -1 for null
    var version: int
    var host: int
    var string_: int
    var contentLength: int
    var linger: bool
    var loads: seq<nat>          // what the next loads of __header_offset find; behind them, what was stored
    ghost var heard: bool        // every load since init found what this worker had stored
    ghost var stream: string     // every byte received since init
    ghost var request: Request   // the fields as values

    /** Overwrites a CR LF. */
    method Terminate(k: nat)
      requires k + 1 < readBuf.Length
      modifies readBuf
      ensures readBuf[..] == old(readBuf[..])[k := NUL][k + 1 := NUL]
    {
      readBuf[k] := NUL;
      readBuf[k + 1] := NUL;
    }

    /** parse_line at a CR or LF. */
    method AtBreak() returns (status: LineStatus)
      requires checkedIdx < readIdx <= readBuf.Length && IsBreak(readBuf[checkedIdx])
      modifies this`checkedIdx, readBuf
      ensures LineResult(status, checkedIdx, readBuf[..]) == LineAt(old(readBuf[..]), old(checkedIdx), readIdx)
    {
      if readBuf[checkedIdx] == CR {
        if checkedIdx + 1 == readIdx {
          return LineOpen;
        } else if readBuf[checkedIdx + 1] == LF {
          Terminate(checkedIdx);
          checkedIdx := checkedIdx + 2;
          return LineOk;
        }
      } else if checkedIdx > 1 && readBuf[checkedIdx - 1] == CR {
        Terminate(checkedIdx - 1);
        checkedIdx := checkedIdx + 1;
        return LineOk;
      }
      return LineBad;
    }

    method ParseLine() returns (status: LineStatus)
      requires checkedIdx <= readIdx <= readBuf.Length
      modifies this`checkedIdx, readBuf
      ensures LineResult(status, checkedIdx, readBuf[..]) == Scan(old(readBuf[..]), old(checkedIdx), readIdx)
    {
      ghost var b, k := readBuf[..], checkedIdx + BreakIndex(readBuf[checkedIdx..readIdx]);
      while checkedIdx < readIdx
        invariant checkedIdx <= readIdx && readBuf[..] == b
        invariant k == checkedIdx + BreakIndex(b[checkedIdx..readIdx])
        decreases readIdx - checkedIdx
      {
        if IsBreak(readBuf[checkedIdx]) {
          status := AtBreak();
          return;
        }
        BreakIndexStep(b, checkedIdx, readIdx);
        checkedIdx := checkedIdx + 1;
      }
      return LineOpen;
    }

    // The string functions that the parser calls, on the string `s` at index `u`.

    /** -1 for null. */
    method StrPBrk(u: nat, ghost s: string) returns (k: int)
      requires Holds(readBuf[..], u, s)
      ensures FirstWord(s).NoWord? ==> k == -1
      ensures FirstWord(s).Word? ==> k == SepIndex(s)
    {
      HoldsReads(readBuf[..], u, s);
      var line := CStr(readBuf[u..]);
      k := SepIndex(line);
      if k == |line| {
        k := -1;
      }
    }

    method StrSpn(u: nat, ghost s: string) returns (k: nat)
      requires Holds(readBuf[..], u, s)
      ensures k == LeadingSeps(s) && Holds(readBuf[..], u + k, SkipSeps(s)) && k + |SkipSeps(s)| == |s|
    {
      HoldsReads(readBuf[..], u, s);
      k := LeadingSeps(CStr(readBuf[u..]));
      HoldsDrop(readBuf[..], u, s, k);
    }

    method StrLen(u: nat, ghost s: string) returns (n: nat)
      requires Holds(readBuf[..], u, s)
      ensures n == |s|
    {
      HoldsReads(readBuf[..], u, s);
      n := |CStr(readBuf[u..])|;
    }

    method StrCaseEq(u: nat, x: string, ghost s: string) returns (eq: bool)
      requires Holds(readBuf[..], u, s)
      ensures eq == EqNoCase(s, x)
    {
      HoldsReads(readBuf[..], u, s);
      eq := EqNoCase(CStr(readBuf[u..]), x);
    }

    method StrNCaseEq(u: nat, p: string, ghost s: string) returns (eq: bool)
      requires Holds(readBuf[..], u, s)
      ensures eq == StartsNoCase(s, p)
    {
      HoldsReads(readBuf[..], u, s);
      eq := StartsNoCase(CStr(readBuf[u..]), p);
    }

    /** Where the value of the header named `p` starts. */
    method HeaderValue(u: nat, p: string, ghost s: string) returns (v: nat)
      requires Holds(readBuf[..], u, s) && |p| <= |s|
      ensures Holds(readBuf[..], v, SkipSeps(s[|p|..])) && v + |SkipSeps(s[|p|..])| == u + |s|
    {
      HoldsDrop(readBuf[..], u, s, |p|);
      var k := StrSpn(u + |p|, s[|p|..]);
      v := u + |p| + k;
    }

    /** strcat(u, x), where the bytes behind the string are free up to its new end. */
    method StrCat(u: nat, x: string, ghost s: string)
      requires Holds(readBuf[..], u, s) && u + |s| + |x| < readBuf.Length
      requires forall j | 0 <= j < |x| :: x[j] != NUL
      modifies readBuf
      ensures Holds(readBuf[..], u, s + x)
      ensures forall j | 0 <= j < readBuf.Length && !(u <= j <= u + |s| + |x|) :: readBuf[j] == old(readBuf[j])
    {
      HoldsReads(readBuf[..], u, s);
      var end := u + |CStr(readBuf[u..])|;
      forall j | 0 <= j < |x| {
        readBuf[end + j] := x[j];
      }
      readBuf[end + |x|] := NUL;
    }

    /** Ends the string at its first separator. */
    method EndWord(u: nat, k: nat, ghost s: string)
      requires Holds(readBuf[..], u, s) && FirstWord(s).Word? && k == SepIndex(s)
      modifies readBuf
      ensures k < |s| && FirstWord(s) == Word(s[..k], SkipSeps(s[k + 1..]))
      ensures Holds(readBuf[..], u, s[..k]) && Holds(readBuf[..], u + k + 1, s[k + 1..])
      ensures SameOutside(old(readBuf[..]), readBuf[..], u, u + |s|)
    {
      WordCut(readBuf[..], u, s);
      readBuf[u + k] := NUL;
    }

    /** Moves the pointer over the separators. */
    method StepOver(u: nat, ghost s: string) returns (v: nat)
      requires Holds(readBuf[..], u, s)
      ensures u <= v && Holds(readBuf[..], v, SkipSeps(s)) && v + |SkipSeps(s)| == u + |s|
    {
      var m := StrSpn(u, s);
      v := u + m;
    }

    /**
     Ends the string at its first separator and steps over the separators: the word stays at
     `u`, and `v` is where the rest starts, -1 without a separator.
     */
    method CutWord(u: nat, ghost s: string) returns (v: int)
      requires Holds(readBuf[..], u, s)
      modifies readBuf
      ensures FirstWord(s).NoWord? ==> v == -1
      ensures FirstWord(s).Word? ==>
                var w := FirstWord(s);
                && Holds(readBuf[..], u, w.text) && Holds(readBuf[..], v, w.rest)
                && u + |w.text| < v && v + |w.rest| == u + |s|
      ensures SameOutside(old(readBuf[..]), readBuf[..], u, u + |s|)
    {
      var k := StrPBrk(u, s);
      if k == -1 {
        return -1;
      }
      EndWord(u, k, s);
      v := StepOver(u + k + 1, s[k + 1..]);
    }

    /**
     The request line behind the method: `target` at `m_url`. All writes, the index file's too,
     stay in the line and the two bytes of its CR LF, which end at `limit`.
     */
    method ParseTarget(ghost target: string, ghost limit: nat) returns (ok: bool)
      requires Holds(readBuf[..], url, target) && url + |target| + 2 <= limit <= readBuf.Length
      requires readBuf[limit - 1] == NUL
      modifies this`version, readBuf
      ensures ok <==> FirstWord(target).Word? && EqNoCase(FirstWord(target).rest, HTTP_VERSION)
      ensures ok ==> var u := FirstWord(target).text;
                     var w := if |u| == 1 then u + INDEX_FILE else u;
                     Holds(readBuf[..], url, w) && url + |w| < limit
      ensures readBuf[limit - 1] == NUL
      ensures SameOutside(old(readBuf[..]), readBuf[..], url, limit)
    {
      version := CutWord(url, target);
      if version == -1 {
        return false;
      }
      ok := StrCaseEq(version, HTTP_VERSION, FirstWord(target).rest);
      if ok {
        var n := StrLen(url, FirstWord(target).text);
        if n == 1 {
          StrCat(url, INDEX_FILE, FirstWord(target).text);
        }
      }
    }

    /** The method name at `text`; only POST sets `cgi`, and nothing clears it. */
    method ParseMethodName(text: nat, ghost name: string) returns (ok: bool)
      requires Holds(readBuf[..], text, name)
      modifies this`method_, this`cgi
      ensures ok <==> EqNoCase(name, GET_NAME) || EqNoCase(name, POST_NAME)
      ensures ok ==> method_ == (if EqNoCase(name, GET_NAME) then Get else Post) &&
                     cgi == (!EqNoCase(name, GET_NAME) || old(cgi))
    {
      var isGet := StrCaseEq(text, GET_NAME, name);
      var isPost := StrCaseEq(text, POST_NAME, name);
      if isGet {
        method_ := Get;
      } else if isPost {
        method_ := Post;
        cgi := true;
      } else {
        return false;
      }
      return true;
    }

    /** The first word of the request line `t` at `text`; what follows is at `m_url`. */
    method ParseMethod(text: nat, ghost t: string) returns (ok: bool)
      requires Holds(readBuf[..], text, t)
      modifies this`url, this`method_, this`cgi, readBuf
      ensures ok <==> FirstWord(t).Word? && (EqNoCase(FirstWord(t).text, GET_NAME) || EqNoCase(FirstWord(t).text, POST_NAME))
      ensures ok ==>
                && method_ == (if EqNoCase(FirstWord(t).text, GET_NAME) then Get else Post)
                && cgi == (!EqNoCase(FirstWord(t).text, GET_NAME) || old(cgi))
                && Holds(readBuf[..], url, FirstWord(t).rest) && text < url && url + |FirstWord(t).rest| == text + |t|
      ensures SameOutside(old(readBuf[..]), readBuf[..], text, text + |t|)
    {
      url := CutWord(text, t);
      if url == -1 {
        return false;
      }
      ok := ParseMethodName(text, FirstWord(t).text);
    }

    /** The fields that an accepted request line sets. */
    ghost predicate Parsed(b: string, t: string, limit: nat, wasCgi: bool)
      reads this
    {
      && Accepts(t) && checkState == Header && method_ == (if IsPost(t) then Post else Get)
      && cgi == (IsPost(t) || wasCgi) && Holds(b, url, UrlOf(t)) && url + |UrlOf(t)| < limit
    }

    /** A line has ended before `end`, and the bytes behind it are as they were received. */
    ghost predicate EndedAt(b: string, end: int)
      reads this`stream
    {
      0 < end <= |b| && b[end - 1] == NUL && Untouched(stream, b, end)
    }

    /** The request line `t` at `text`, whose bytes with the CR LF end at `limit`. */
    method ParseRequestLine(text: nat, ghost t: string, ghost limit: nat) returns (code: HttpCode)
      requires Holds(readBuf[..], text, t) && text + |t| + 2 <= limit <= readBuf.Length
      requires EndedAt(readBuf[..], limit)
      modifies this`url, this`version, this`method_, this`cgi, this`checkState, readBuf
      ensures code == (if Accepts(t) then NoRequest else BadRequest)
      ensures code == NoRequest ==> Parsed(readBuf[..], t, limit, old(cgi))
      ensures EndedAt(readBuf[..], limit)
      ensures SameOutside(old(readBuf[..]), readBuf[..], text, limit)
    {
      ghost var b := readBuf[..];
      var ok := ParseMethod(text, t);
      ghost var c := readBuf[..];
      if ok {
        ok := ParseTarget(FirstWord(t).rest, limit);
        SameOutsideBoth(b, c, readBuf[..], text, url, limit);
      }
      UntouchedFrame(stream, b, readBuf[..], text, limit);
      if !ok {
        return BadRequest;
      }
      checkState := Header;
      return NoRequest;
    }

    /** A load of __header_offset, in which this worker has stored `n`. */
    method LoadOffset(n: nat) returns (offset: nat)
      modifies this`loads, this`heard
      ensures heard <==> old(heard) && offset == n
      ensures if old(loads) == [] then offset == n && loads == [] else offset == old(loads)[0] && loads == old(loads)[1..]
    {
      offset := n;
      if loads != [] {
        offset, loads := loads[0], loads[1..];
      }
      heard := heard && offset == n;
    }

    /** One test of parse_headers; not `ok` when the length to compare was another worker's. */
    method TryName(text: nat, name: Name, ghost t: string) returns (ok: bool, hit: bool)
      requires Holds(readBuf[..], text, t) && heard
      modifies this`loads, this`heard
      ensures (ok <==> heard) && (old(loads) == [] ==> ok && loads == [])
      ensures ok ==> hit == StartsNoCase(t, NameText(name))
    {
      var offset := LoadOffset(|NameText(name)|);
      if offset != |NameText(name)| {
        return false, false;
      }
      hit := StrNCaseEq(text, NameText(name), t);
      return true, hit;
    }

    /** The name that begins the line, after the load that steps over it. */
    method MatchName(text: nat, ghost t: string) returns (ok: bool, name: Option<Name>)
      requires Holds(readBuf[..], text, t) && heard
      modifies this`loads, this`heard
      ensures (ok <==> heard) && (old(loads) == [] ==> ok && loads == [])
      ensures ok ==> match name
                     case Some(n) => NoneBefore(t, n) && StartsNoCase(t, NameText(n))
                     case None => !StartsNoCase(t, CONNECTION) && !StartsNoCase(t, CONTENT_LENGTH) && !StartsNoCase(t, HOST)
    {
      var hit;
      var n := ConnectionName;
      ok, hit := TryName(text, n, t);
      if ok && !hit {
        n := LengthName;
        ok, hit := TryName(text, n, t);
      }
      if ok && !hit {
        n := HostName;
        ok, hit := TryName(text, n, t);
      }
      if !ok || !hit {
        return ok, None;
      }
      var offset := LoadOffset(|NameText(n)|);
      return offset == |NameText(n)|, Some(n);
    }

    /** What parse_headers does with the value behind the name `n`. */
    method TakeValue(text: nat, n: Name, ghost t: string, ghost r: Request)
      requires Holds(readBuf[..], text, t) && r.contentLength == contentLength && r.linger == linger
      requires StartsNoCase(t, NameText(n))
      modifies this`linger, this`contentLength, this`host
      ensures var q := ValueEffect(r, t, n, |NameText(n)|).request;
              && contentLength == q.contentLength && linger == q.linger
              && ((host == old(host) && q.host == r.host) ||
                  (q.host.Some? && Holds(readBuf[..], host, q.host.value) && host + |q.host.value| == text + |t|))
    {
      var v := HeaderValue(text, NameText(n), t);
      match n
      case ConnectionName =>
        var keep := StrCaseEq(v, KEEP_ALIVE, SkipSeps(t[|CONNECTION|..]));
        if keep {
          linger := true;
        }
      case LengthName =>
        HoldsReads(readBuf[..], v, SkipSeps(t[|CONTENT_LENGTH|..]));
        contentLength := ToInt(Atol(CStr(readBuf[v..])));
      case HostName =>
        host := v;
    }

    /**
     The header line `t` at `text`, for a connection with the fields of `r`, as long as the
     loads of the shared offset find what this worker has stored.
     */
    method ParseHeaders(text: nat, ghost t: string, ghost r: Request) returns (code: HttpCode)
      requires Holds(readBuf[..], text, t) && r.contentLength == contentLength && r.linger == linger && heard
      modifies this`checkState, this`linger, this`contentLength, this`host, this`loads, this`heard
      ensures (code == Disturbed <==> !heard) && (old(loads) == [] ==> heard && loads == [])
      ensures heard ==> code == (if HeaderEffect(r, t).Finish? then DoRequest else NoRequest)
      ensures heard ==> checkState == (if HeaderEffect(r, t).StartBody? then Content else old(checkState))
      ensures heard ==>
                var q := HeaderEffect(r, t).request;
                && contentLength == q.contentLength && linger == q.linger
                && ((host == old(host) && q.host == r.host) ||
                    (q.host.Some? && Holds(readBuf[..], host, q.host.value) && host + |q.host.value| == text + |t|))
    {
      var n := StrLen(text, t);
      if n == 0 {
        if contentLength != 0 {
          checkState := Content;
          return NoRequest;
        }
        return DoRequest;
      }
      var ok, name := MatchName(text, t);
      if !ok {
        return Disturbed;
      }
      if name.Some? {
        TakeValue(text, name.value, t, r);
      }
      return NoRequest;
    }

    /** The fields are those of `r`; the strings they point to in `b` end before `limit`. */
    ghost predicate Tied(b: string, r: Request, limit: nat)
      reads this`checkState, this`method_, this`cgi, this`contentLength, this`linger, this`url, this`host
    {
      && checkState == r.phase && method_ == r.method_ && cgi == r.cgi
      && contentLength == r.contentLength && linger == r.linger
      && PointsTo(b, url, r.url, limit) && PointsTo(b, host, r.host, limit)
    }

    lemma TiedFrame(b: string, c: string, r: Request, limit: nat, lo: nat, hi: int)
      requires Tied(b, r, limit) && SameOutside(b, c, lo, hi) && limit <= lo
      ensures Tied(c, r, limit)
    {
      PointsToFrame(b, c, url, r.url, limit, lo, hi, limit);
      PointsToFrame(b, c, host, r.host, limit, lo, hi, limit);
    }

    /** Reading, with `b` in the buffer and `m_checked_idx` at `checked`. */
    ghost predicate ReadingOn(b: string, checked: nat)
      reads this
    {
      && |b| == READ_BUFFER_SIZE && startLine <= checked <= readIdx == |stream| <= READ_BUFFER_SIZE
      && !request.phase.Content? && (request.phase.RequestLine? ==> request.host.None?)
      && Tied(b, request, startLine) && Untouched(stream, b, startLine) && NoBreak(stream[startLine..checked])
      && (startLine > 0 ==> b[startLine - 1] == NUL)
      && Leads(NEW_REQUEST, stream[..startLine], request)
    }

    /** Between two calls, up to the blank line: all that is known follows from the stream alone. */
    ghost predicate Reading()
      reads this, readBuf
    {
      ReadingOn(readBuf[..], checkedIdx)
    }

    /** Just after parse_line has completed a line: its text `t` is at `m_start_line` in `b`. */
    ghost predicate AtText(b: string, t: string)
      reads this
    {
      && |b| == READ_BUFFER_SIZE && startLine + |t| + 2 <= checkedIdx <= |stream| <= READ_BUFFER_SIZE
      && Tied(b, request, startLine) && Holds(b, startLine, t) && EndedAt(b, checkedIdx)
    }

    /** The same after the switch, when the line changed the fields to those of `q`. */
    ghost predicate LineTaken(b: string, q: Request)
      reads this`checkState, this`method_, this`cgi, this`contentLength, this`linger, this`url, this`host
      reads this`startLine, this`checkedIdx, this`stream
    {
      startLine == checkedIdx && EndedAt(b, startLine) && Tied(b, q, startLine)
    }

    /** The fields that a request line finds as init has left them. */
    ghost predicate NoHeaderYet()
      reads this`request, this`host, this`contentLength, this`linger
    {
      request.host.None? && host == -1 && contentLength == request.contentLength && linger == request.linger
    }

    /** The fields after a request line. */
    lemma RequestLineTaken(b: string, t: string)
      requires startLine == checkedIdx && EndedAt(b, startLine)
      requires NoHeaderYet() && Parsed(b, t, startLine, request.cgi)
      ensures LineTaken(b, RequestLineEffect(request, t).request)
    {
    }

    /** The switch of process_read: the request line. */
    method TakeRequestLine(ghost t: string) returns (code: HttpCode)
      requires AtText(readBuf[..], t) && request.phase.RequestLine? && request.host.None?
      modifies this`startLine, this`url, this`version, this`method_, this`cgi, this`checkState, readBuf
      ensures code == (if Accepts(t) then NoRequest else BadRequest)
      ensures code == NoRequest ==> LineTaken(readBuf[..], RequestLineEffect(request, t).request)
    {
      assert NoHeaderYet() && cgi == request.cgi;
      var text := startLine;
      startLine := checkedIdx;
      code := ParseRequestLine(text, t, checkedIdx);
      if code == NoRequest {
        RequestLineTaken(readBuf[..], t);
      }
    }

    /** The switch of process_read: a header line, or the blank line. */
    method TakeHeader(ghost t: string) returns (code: HttpCode)
      requires AtText(readBuf[..], t) && request.phase.Header? && heard
      modifies this`startLine, this`checkState, this`linger, this`contentLength, this`host, this`loads, this`heard
      ensures (code == Disturbed <==> !heard) && (old(loads) == [] ==> heard && loads == [])
      ensures heard ==> code == (if HeaderEffect(request, t).Finish? then DoRequest else NoRequest)
      ensures heard ==> LineTaken(readBuf[..], HeaderEffect(request, t).request)
    {
      var text := startLine;
      startLine := checkedIdx;
      code := ParseHeaders(text, t, request);
    }

    /** parse_line stopped inside a line: nothing else has changed. */
    lemma StoppedInLine(b: string, from: nat)
      requires ReadingOn(b, from) && !NextLine(stream[startLine..]).Complete?
      ensures var res := Scan(b, from, readIdx);
              && res.status != LineOk && res.buf == b && ReadingOn(b, res.checked)
    {
      ScanStops(stream, b, startLine, from);
    }

    /** parse_line completed a line. */
    lemma CompletedLine(b: string, from: nat, text: string, rest: string)
      requires ReadingOn(b, from) && NextLine(stream[startLine..]) == Complete(text, rest)
      requires checkedIdx == Scan(b, from, readIdx).checked
      ensures Scan(b, from, readIdx).status == LineOk && AtText(Scan(b, from, readIdx).buf, CStr(text))
      ensures NoBreak(text) && startLine < checkedIdx <= |stream| && rest == stream[checkedIdx..]
      ensures stream[..checkedIdx] == stream[..startLine] + text + CRLF
    {
      var c := Scan(b, from, readIdx).buf;
      LineCompleted(stream, b, startLine, from, text, rest);
      assert EndedAt(c, checkedIdx);
      assert Tied(c, request, startLine) by { TiedFrame(b, c, request, startLine, startLine, checkedIdx); }
      assert stream[..checkedIdx] == stream[..startLine] + text + CRLF by {
        ThroughNextLine(stream, startLine, text, rest);
      }
    }

    /** parse_line on a line that has been begun. */
    method EndLine() returns (ended: bool)
      requires Reading()
      modifies this`checkedIdx, readBuf
      ensures ended == NextLine(stream[startLine..]).Complete?
      ensures !ended ==> Reading()
      ensures ended ==>
                var line := NextLine(stream[startLine..]);
                && AtText(readBuf[..], CStr(line.text)) && startLine < checkedIdx
                && LineRead(stream, checkedIdx, stream[..startLine], request, line.text)
    {
      ghost var b, from, line := readBuf[..], checkedIdx, NextLine(stream[startLine..]);
      var status := ParseLine();
      ended := status == LineOk;
      if line.Complete? {
        CompletedLine(b, from, line.text, line.rest);
      } else {
        StoppedInLine(b, from);
      }
    }

    /** The code and the fields are what the line `text` makes of those of `r`. */
    ghost predicate Switched(r: Request, text: string, code: HttpCode)
      reads this, readBuf
    {
      var step := LineStep(r, text);
      && code == (if step.Reject? then BadRequest else if step.Finish? then DoRequest else NoRequest)
      && (!step.Reject? ==> request == step.request && LineTaken(readBuf[..], request))
    }

    /** The switch of process_read, on a line that is not part of the content. */
    method Switch(ghost text: string) returns (code: HttpCode)
      requires AtText(readBuf[..], CStr(text)) && !request.phase.Content? && heard
      requires request.phase.RequestLine? ==> request.host.None?
      modifies this`startLine, this`url, this`version, this`method_, this`cgi, this`checkState,
               this`linger, this`contentLength, this`host, this`request, this`loads, this`heard, readBuf
      ensures (code == Disturbed <==> !heard) && (old(loads) == [] ==> heard && loads == [])
      ensures heard ==> Switched(old(request), text, code)
    {
      ghost var r := request;
      if checkState == RequestLine {
        code := TakeRequestLine(CStr(text));
      } else {
        code := TakeHeader(CStr(text));
      }
      if code != BadRequest && code != Disturbed {
        request := LineStep(r, text).request;
      }
    }

    /** The result and the fields are what the whole stream received so far means. */
    ghost predicate Agrees(code: HttpCode)
      reads this, readBuf
    {
      match Parse(NEW_REQUEST, stream)
      case More(r, _) => code == NoRequest && Reading() && request == r
      case Stuck(r, _) => code == NoRequest && Reading() && request == r
      case Rejected => code == BadRequest
      case Ready(r, rest) =>
        code == DoRequest && LineTaken(readBuf[..], r) && startLine <= |stream| && rest == stream[startLine..]
      case Body(r, rest) =>
        code == NoRequest && LineTaken(readBuf[..], r) && request == r && r.phase.Content? &&
        startLine <= |stream| && rest == stream[startLine..]
    }

    /** A line that continues the request leaves the reader where the rest of the stream begins. */
    lemma LineAdvances(prefix: string, r: Request, text: string)
      requires LineRead(stream, checkedIdx, prefix, r, text) && LineStep(r, text) == Continue(request)
      requires LineTaken(readBuf[..], request) && readBuf.Length == READ_BUFFER_SIZE
      requires readIdx == |stream| <= READ_BUFFER_SIZE && !request.phase.Content?
      requires request.phase.RequestLine? ==> request.host.None?
      ensures Reading()
    {
      LeadsOn(NEW_REQUEST, prefix, r, text, request);
    }

    lemma AgreesInLine()
      requires Reading() && !NextLine(stream[startLine..]).Complete?
      ensures Agrees(NoRequest)
    {
      RestDecides(stream, startLine, request);
    }

    /** The line `text` decides the request; `r` and `prefix` are from before it. */
    lemma AgreesAfterLine(prefix: string, r: Request, text: string, code: HttpCode)
      requires LineRead(stream, checkedIdx, prefix, r, text)
      requires match LineStep(r, text)
               case Reject => code == BadRequest
               case Finish(q) => code == DoRequest && LineTaken(readBuf[..], q)
               case StartBody(q) => code == NoRequest && LineTaken(readBuf[..], q) && request == q
               case Continue(_) => false
      ensures Agrees(code)
    {
      LineDecides(stream, checkedIdx, prefix, r, text);
    }

    /** The switch has handled a line: the loop goes on, or the whole stream has decided. */
    lemma AfterSwitch(prefix: string, r: Request, text: string, code: HttpCode)
      requires LineRead(stream, checkedIdx, prefix, r, text) && !r.phase.Content?
      requires r.phase.RequestLine? ==> r.host.None?
      requires readBuf.Length == READ_BUFFER_SIZE && readIdx == |stream| <= READ_BUFFER_SIZE
      requires Switched(r, text, code)
      ensures if code == NoRequest && request.phase != Content then Reading() else Agrees(code)
    {
      PhaseAfter(r, text);
      if LineStep(r, text).Continue? {
        LineAdvances(prefix, r, text);
      } else {
        AgreesAfterLine(prefix, r, text, code);
      }
    }

    /** One turn of the loop; `going` while it has to be repeated. */
    method ReadLine() returns (going: bool, code: HttpCode)
      requires Reading() && heard
      modifies this`checkedIdx, this`startLine, this`url, this`version, this`method_, this`cgi, this`checkState,
               this`linger, this`contentLength, this`host, this`request, this`loads, this`heard, readBuf
      ensures (code == Disturbed <==> !heard) && (old(loads) == [] ==> heard && loads == [])
      ensures if going then heard && Reading() && old(startLine) < startLine <= readIdx else heard ==> Agrees(code)
    {
      ghost var line, r, prefix := NextLine(stream[startLine..]), request, stream[..startLine];
      var ended := EndLine();
      if !ended {
        AgreesInLine();
        return false, NoRequest;
      }
      code := Switch(line.text);
      if code == Disturbed {
        return false, Disturbed;
      }
      AfterSwitch(prefix, r, line.text, code);
      going := code == NoRequest && checkState != Content;
    }

    /**
     process_read's loop up to the content. Main result: however the bytes were split into
     reads, the outcome is the one of parsing the whole stream at once, unless a load of the
     shared offset was disturbed.
     */
    method ReadLines() returns (code: HttpCode)
      requires Reading() && heard
      modifies this`checkedIdx, this`startLine, this`url, this`version, this`method_, this`cgi, this`checkState,
               this`linger, this`contentLength, this`host, this`request, this`loads, this`heard, readBuf
      ensures (code == Disturbed <==> !heard) && (old(loads) == [] ==> heard && loads == [])
      ensures heard ==> Agrees(code)
    {
      var going := true;
      code := NoRequest;
      while going
        invariant (code == Disturbed <==> !heard) && (old(loads) == [] ==> heard && loads == [])
        invariant if going then heard && Reading() else heard ==> Agrees(code)
        decreases going, readIdx - startLine
      {
        going, code := ReadLine();
      }
    }

    // ---------- the content ----------

    /** parse_content. */
    method ParseContent(text: nat) returns (code: HttpCode)
      modifies this`string_, readBuf
      ensures code == (if contentLength + checkedIdx > INT_MAX then Fault
                       else if readIdx < contentLength + checkedIdx then NoRequest
                       else if 0 <= text + contentLength < readBuf.Length then DoRequest
                       else Fault)
      ensures code == DoRequest ==> string_ == text && readBuf[..] == old(readBuf[..])[text + contentLength := NUL]
      ensures code != DoRequest ==> readBuf[..] == old(readBuf[..])
    {
      if contentLength + checkedIdx > INT_MAX {
        return Fault;
      }
      if readIdx >= contentLength + checkedIdx {
        if !(0 <= text + contentLength < readBuf.Length) {
          return Fault;
        }
        readBuf[text + contentLength] := NUL;
        string_ := text;
        return DoRequest;
      }
      return NoRequest;
    }

    /** The buffer and the indices are as in `res`. */
    ghost predicate LeftBy(res: ContentResult)
      reads this`startLine, this`checkedIdx, this`string_, this`readBuf, readBuf
    {
      && readBuf[..] == res.buf && startLine == res.start && checkedIdx == res.checked
      && (res.code == DoRequest ==> string_ == res.text)
    }

    /** process_read's loop in the content state. */
    method ReadContent() returns (code: HttpCode)
      requires startLine <= checkedIdx <= readIdx <= readBuf.Length
      modifies this`checkedIdx, this`startLine, this`string_, readBuf
      ensures var res := ContentRun(old(readBuf[..]), old(startLine), old(checkedIdx), readIdx, contentLength);
              code == res.code != Disturbed && LeftBy(res)
    {
      ghost var res := ContentRun(readBuf[..], startLine, checkedIdx, readIdx, contentLength);
      var status := LineOk;
      while status == LineOk
        invariant startLine <= checkedIdx <= readIdx
        invariant if status == LineOk then res == ContentRun(readBuf[..], startLine, checkedIdx, readIdx, contentLength)
                  else res.code == NoRequest && readBuf[..] == res.buf && startLine == res.start && checkedIdx == res.checked
        decreases status == LineOk, readIdx - checkedIdx
      {
        var text := startLine;
        startLine := checkedIdx;
        code := ParseContent(text);
        if code != NoRequest {
          return;
        }
        ScanBounds(readBuf[..], checkedIdx, readIdx);
        status := ParseLine();
      }
      return NoRequest;
    }

    /** The stream has come to a body, whose bytes are untouched in `b` from `pos` on. */
    ghost predicate AtBody(b: string, pos: nat)
      reads this`checkState, this`method_, this`cgi, this`contentLength, this`linger, this`url, this`host
      reads this`readIdx, this`stream, this`request
    {
      && |b| == READ_BUFFER_SIZE && 0 < pos <= |stream| == readIdx && Untouched(stream, b, pos)
      && b[pos - 1] == NUL && Tied(b, request, pos)
      && request.phase.Content? && Parse(NEW_REQUEST, stream) == Body(request, stream[pos..])
    }

    /** The blank line has been read, and nothing of the content yet looked at. */
    ghost predicate AwaitingBody()
      reads this, readBuf
    {
      startLine == checkedIdx && AtBody(readBuf[..], startLine)
    }

    /** With `m_start_line` still at the body's start, no byte of it has been overwritten. */
    ghost predicate StartKept(b: string, r: Request, pos: nat, from: nat)
      reads this`checkState, this`method_, this`cgi, this`contentLength, this`linger, this`url, this`host, this`stream
    {
      pos <= from && (from == pos ==> Untouched(stream, b, pos) && Tied(b, r, pos))
    }

    /** In the content with `m_start_line` at `from`, parse_line has moved into the body, up to `checked`. */
    ghost predicate InBody(b: string, from: nat, checked: nat)
      reads this`checkState, this`method_, this`cgi, this`contentLength, this`linger, this`url, this`host
      reads this`readIdx, this`stream
    {
      && |b| == READ_BUFFER_SIZE && checkState.Content? && from <= checked <= readIdx == |stream| <= READ_BUFFER_SIZE
      && match Parse(NEW_REQUEST, stream)
         case Body(r, rest) =>
           contentLength == r.contentLength && |rest| <= |stream| < checked + |rest| &&
           StartKept(b, r, |stream| - |rest|, from)
         case _ => false
    }

    /** In the content, but parse_line has already moved into it. */
    ghost predicate PastBody()
      reads this, readBuf
    {
      InBody(readBuf[..], startLine, checkedIdx)
    }

    ghost predicate Ongoing()
      reads this, readBuf
    {
      Reading() || AwaitingBody() || PastBody()
    }

    /** `m_string` is the body, terminated, and the other fields are those of `r`. */
    ghost predicate BodyRead(r: Request, rest: string)
      reads this, readBuf
    {
      && 0 <= r.contentLength <= |rest| && 0 <= string_ && string_ + r.contentLength < readBuf.Length
      && readBuf[string_..string_ + r.contentLength] == rest[..r.contentLength]
      && readBuf[string_ + r.contentLength] == NUL && Tied(readBuf[..], r, string_)
    }

    /** What process_read answers when the stream has come to a body, of which `rest` is there. */
    ghost predicate BodyAnswer(code: HttpCode, r: Request, rest: string)
      requires |rest| <= |stream|
      reads this, readBuf
    {
      && (0 < r.contentLength <= |rest| && |stream| - |rest| + r.contentLength < READ_BUFFER_SIZE ==>
            code == DoRequest && BodyRead(r, rest) && string_ == |stream| - |rest|)
      && (0 < r.contentLength <= |rest| && |stream| - |rest| + r.contentLength >= READ_BUFFER_SIZE ==> code == Fault)
      && (|rest| < r.contentLength <= INT_MAX - READ_BUFFER_SIZE ==> code == NoRequest)
      && (code == DoRequest ==> r.contentLength <= |rest|)
      && (code == NoRequest ==> |rest| < r.contentLength && if Stays(rest) then AwaitingBody() else PastBody())
    }

    /** The body from `string_` on, when a call has issued it. */
    lemma BodyLeft(b: string, r: Request)
      requires 0 < contentLength && 0 <= string_ <= |stream| <= |b| && string_ + contentLength < |b|
      requires Untouched(stream, b, string_) && Tied(b, r, string_) && string_ + contentLength <= |stream|
      requires readBuf[..] == b[string_ + contentLength := NUL]
      ensures BodyRead(r, stream[string_..])
    {
      BodyCopied(b, stream, string_, contentLength);
    }

    /**
     What process_read answers once parse_line has moved into the body, `from` and `checked`
     being `m_start_line` and `m_checked_idx` before. A request that is issued late waits for
     the announced length behind `checked`, and hands on the text at `from`: that is the body if
     and only if parse_line has moved once.
     */
    ghost predicate LateAnswer(code: HttpCode, r: Request, rest: string, from: nat, checked: nat)
      requires |rest| <= |stream|
      reads this, readBuf
    {
      var pos := |stream| - |rest|;
      && (code == NoRequest ==> PastBody())
      && (|rest| <= r.contentLength <= INT_MAX - READ_BUFFER_SIZE ==> code == NoRequest)
      && (code == DoRequest ==> string_ == from >= pos && r.contentLength + checked <= |stream|)
      && (0 <= r.contentLength <= |stream| - checked ==>
            code == if from + r.contentLength < READ_BUFFER_SIZE then DoRequest else Fault)
      && (code == DoRequest && 0 < r.contentLength && from == pos ==> BodyRead(r, rest))
    }

    /** The code and the fields are what the whole stream means, as far as it has arrived. */
    ghost predicate Answers(code: HttpCode, wasPast: bool, from: nat, checked: nat)
      reads this, readBuf
    {
      match Parse(NEW_REQUEST, stream)
      case Body(r, rest) =>
        |rest| <= |stream| && if wasPast then LateAnswer(code, r, rest, from, checked) else BodyAnswer(code, r, rest)
      case _ => Agrees(code)
    }

    /** After a first call in the content that left the body unfinished. */
    lemma BodyUnfinished(b: string, pos: nat, res: ContentResult)
      requires AtBody(b, pos) && LeftBy(res) && pos <= res.start <= res.checked <= |stream|
      requires if Stays(stream[pos..]) then res == ContentResult(NoRequest, b, pos, pos, pos) else pos < res.checked
      requires res.start == pos ==> res.buf == b
      requires |res.buf| == |b|
      ensures if Stays(stream[pos..]) then AwaitingBody() else PastBody()
    {
    }

    /** What the first call in the content leaves is its answer. */
    lemma FirstAnswerHolds(b: string, pos: nat, res: ContentResult)
      requires AtBody(b, pos) && LeftBy(res) && FirstAnswer(res, b, stream, pos, contentLength)
      requires res.start <= res.checked <= |stream| && |res.buf| == |b|
      ensures BodyAnswer(res.code, request, stream[pos..])
    {
      if res.code == NoRequest {
        assert if Stays(stream[pos..]) then AwaitingBody() else PastBody() by { BodyUnfinished(b, pos, res); }
      } else if 0 < contentLength <= |stream| - pos && pos + contentLength < READ_BUFFER_SIZE {
        assert BodyRead(request, stream[pos..]) by { BodyLeft(b, request); }
      }
    }

    /** The first call in the content. */
    lemma BodyAnswered(b: string, pos: nat, res: ContentResult)
      requires AtBody(b, pos) && LeftBy(res) && res == ContentRun(b, pos, pos, |stream|, contentLength)
      ensures Answers(res.code, false, pos, pos)
    {
      assert FirstAnswer(res, b, stream, pos, contentLength) by { BodyCall(b, stream, pos, contentLength); }
      assert BodyAnswer(res.code, request, stream[pos..]) by { FirstAnswerHolds(b, pos, res); }
    }

    /** After a later call that issued nothing. */
    lemma LateUnfinished(b: string, from: nat, checked: nat, res: ContentResult)
      requires InBody(b, from, checked) && LeftBy(res) && res.start <= res.checked <= |stream| && |res.buf| == |b|
      requires checked <= res.start && checked <= res.checked && (res.start == checked ==> res.buf == b)
      ensures PastBody()
    {
    }

    /** What a later call leaves is its answer. */
    lemma LateAnswerHolds(b: string, from: nat, checked: nat, body: Outcome, res: ContentResult)
      requires InBody(b, from, checked) && LeftBy(res) && body == Parse(NEW_REQUEST, stream) && body.Body?
      requires res == ContentRun(b, from, checked, |stream|, contentLength) && |body.rest| <= |stream|
      requires |body.rest| <= contentLength <= INT_MAX - READ_BUFFER_SIZE ==> res.code == NoRequest
      ensures LateAnswer(res.code, body.request, body.rest, from, checked)
    {
      TextStarts(b, from, checked, |stream|, contentLength);
      if res.code == NoRequest {
        assert PastBody() by { LateUnfinished(b, from, checked, res); }
      } else if res.code == DoRequest && 0 < contentLength && from == |stream| - |body.rest| {
        assert BodyRead(body.request, body.rest) by { LateBody(b, from, checked, body); }
      }
    }

    /** A later call, after parse_line has moved. */
    lemma LateAnswered(b: string, from: nat, checked: nat, res: ContentResult)
      requires InBody(b, from, checked) && LeftBy(res) && res == ContentRun(b, from, checked, |stream|, contentLength)
      ensures Answers(res.code, true, from, checked)
    {
      var body := Parse(NEW_REQUEST, stream);
      if |body.rest| <= contentLength <= INT_MAX - READ_BUFFER_SIZE {
        MovedNeverCompletes(b, from, checked, |stream|, contentLength, |stream| - |body.rest|);
      }
      assert LateAnswer(res.code, body.request, body.rest, from, checked) by { LateAnswerHolds(b, from, checked, body, res); }
    }

    /** Its body, when the request is issued at once from the right start. */
    lemma LateBody(b: string, from: nat, checked: nat, body: Outcome)
      requires InBody(b, from, checked) && body == Parse(NEW_REQUEST, stream) && from == |stream| - |body.rest|
      requires 0 < contentLength && contentLength + checked <= |stream| && string_ == from
      requires readBuf[..] == b[from + contentLength := NUL]
      ensures BodyRead(body.request, body.rest)
    {
      RestOfStream(NEW_REQUEST, stream);
      BodyLeft(b, body.request);
    }

    /** process_read in the content state. */
    method AnswerContent() returns (code: HttpCode)
      requires AwaitingBody() || PastBody()
      modifies this`checkedIdx, this`startLine, this`string_, readBuf
      ensures Answers(code, old(PastBody()), old(startLine), old(checkedIdx)) && code != Disturbed
    {
      ghost var past, b, from, checked := PastBody(), readBuf[..], startLine, checkedIdx;
      ghost var res := ContentRun(b, startLine, checkedIdx, readIdx, contentLength);
      assert if past then InBody(b, from, checked) else AtBody(b, from) && checked == from;
      code := ReadContent();
      if past {
        LateAnswered(b, from, checked, res);
      } else {
        BodyAnswered(b, from, res);
      }
    }

    lemma AnsweredByLines(code: HttpCode, from: nat, checked: nat)
      requires Agrees(code) && (code != NoRequest || checkState != Content)
      ensures Answers(code, false, from, checked)
    {
    }

    lemma CameToBody()
      requires Agrees(NoRequest) && checkState == Content && readBuf.Length == READ_BUFFER_SIZE && readIdx == |stream|
      ensures AwaitingBody() && !PastBody()
    {
    }

    /** A first answer does not depend on where the indices were. */
    lemma FirstAnswerAnywhere(code: HttpCode, start: nat, end: nat, from: nat, checked: nat)
      requires Answers(code, false, start, end)
      ensures Answers(code, false, from, checked)
    {
    }

    /** process_read up to the content: `done` unless the loop goes on into it. */
    method ProcessLines(ghost from: nat, ghost checked: nat) returns (done: bool, code: HttpCode)
      requires Reading() && heard
      modifies this`checkedIdx, this`startLine, this`url, this`version, this`method_, this`cgi, this`checkState,
               this`linger, this`contentLength, this`host, this`request, this`loads, this`heard, readBuf
      ensures (code == Disturbed <==> !heard) && (old(loads) == [] ==> heard && loads == [])
      ensures if done then heard ==> Answers(code, false, from, checked) else heard && AwaitingBody() && !PastBody()
    {
      code := ReadLines();
      if code == Disturbed {
        return true, code;
      }
      done := code != NoRequest || checkState != Content;
      if done {
        AnsweredByLines(code, from, checked);
      } else {
        CameToBody();
      }
    }

    /** process_read, with a call of do_request as one of its results. */
    method ProcessRead() returns (code: HttpCode)
      requires Ongoing() && heard
      modifies this`checkedIdx, this`startLine, this`url, this`version, this`method_, this`cgi, this`checkState,
               this`linger, this`contentLength, this`host, this`string_, this`request, this`loads, this`heard, readBuf
      ensures (code == Disturbed <==> !heard) && (old(loads) == [] ==> heard && loads == [])
      ensures heard ==> Answers(code, old(PastBody()), old(startLine), old(checkedIdx))
    {
      ghost var past, from, checked := PastBody(), startLine, checkedIdx;
      if checkState != Content {
        var done;
        done, code := ProcessLines(from, checked);
        if done {
          return;
        }
      }
      ghost var start, end := startLine, checkedIdx;
      code := AnswerContent();
      if !past { FirstAnswerAnywhere(code, start, end, from, checked); }
    }

    method Clear()
      modifies readBuf
      ensures forall j | 0 <= j < readBuf.Length :: readBuf[j] == NUL
    {
      forall j | 0 <= j < readBuf.Length {
        readBuf[j] := NUL;
      }
    }

    /** The fields that init sets. */
    ghost predicate Zeroed()
      reads this
    {
      && startLine == checkedIdx == readIdx == 0 && stream == [] && request == NEW_REQUEST && heard
      && checkState == RequestLine && method_ == Get && !cgi && url == -1 && host == -1 && contentLength == 0 && !linger
    }

    lemma FreshReading()
      requires readBuf.Length == READ_BUFFER_SIZE && Zeroed()
      ensures Reading()
    {
      LeadsNothing(NEW_REQUEST);
      assert stream[..startLine] == [];
    }

    method ZeroIndices()
      modifies this`url, this`version, this`host, this`startLine, this`checkedIdx, this`readIdx
      ensures url == version == host == -1 && startLine == checkedIdx == readIdx == 0
    {
      url := -1;
      version := -1;
      host := -1;
      startLine := 0;
      checkedIdx := 0;
      readIdx := 0;
    }

    method Zero()
      modifies this`checkState, this`linger, this`method_, this`url, this`version, this`contentLength, this`host,
               this`startLine, this`checkedIdx, this`readIdx, this`cgi, this`stream, this`request, this`heard
      ensures Zeroed()
    {
      ZeroIndices();
      checkState := RequestLine;
      linger := false;
      method_ := Get;
      contentLength := 0;
      cgi := false;
      stream, request, heard := [], NEW_REQUEST, true;
    }

    /** init: a connection for a new request. */
    method Init()
      requires readBuf.Length == READ_BUFFER_SIZE
      modifies this, readBuf
      ensures readBuf == old(readBuf) && loads == old(loads)
      ensures Reading() && stream == [] && request == NEW_REQUEST && heard
      ensures forall j | 0 <= j < READ_BUFFER_SIZE :: readBuf[j] == NUL
    {
      Zero();
      Clear();
      FreshReading();
    }

    lemma ReadingGrows(b: string, s: string, data: string)
      requires stream == s + data && |b| == READ_BUFFER_SIZE && |stream| == readIdx <= READ_BUFFER_SIZE
      requires startLine <= checkedIdx <= |s| && !request.phase.Content? && (request.phase.RequestLine? ==> request.host.None?)
      requires Tied(b, request, startLine) && Untouched(s, b, startLine) && NoBreak(s[startLine..checkedIdx])
      requires (startLine > 0 ==> b[startLine - 1] == NUL) && Leads(NEW_REQUEST, s[..startLine], request)
      requires SameOutside(b, readBuf[..], |s|, |stream|) && readBuf[|s|..|stream|] == data
      ensures Reading()
    {
      UntouchedGrows(s, b, readBuf[..], startLine, data);
      TiedFrame(b, readBuf[..], request, startLine, |s|, |stream|);
      assert stream[startLine..checkedIdx] == s[startLine..checkedIdx] && stream[..startLine] == s[..startLine];
    }

    lemma AwaitingNotPast()
      requires AwaitingBody()
      ensures !PastBody()
    {
    }

    lemma AwaitingGrows(b: string, s: string, data: string)
      requires stream == s + data && |b| == READ_BUFFER_SIZE && |stream| == readIdx <= READ_BUFFER_SIZE
      requires 0 < startLine == checkedIdx <= |s| && b[startLine - 1] == NUL && Untouched(s, b, startLine)
      requires Tied(b, request, startLine) && request.phase.Content? && Parse(NEW_REQUEST, s) == Body(request, s[startLine..])
      requires SameOutside(b, readBuf[..], |s|, |stream|) && readBuf[|s|..|stream|] == data
      ensures AwaitingBody()
    {
      var c := readBuf[..];
      assert c[|s|..|stream|] == data;
      StartStays(b, c, s, data, request);
      assert Parse(NEW_REQUEST, stream) == Body(request, stream[startLine..]) by {
        BodyExtends(NEW_REQUEST, s, data, startLine, request);
      }
    }

    /** The start of the body, where parse_line has not moved past it, when bytes arrive. */
    lemma StartStays(b: string, c: string, s: string, data: string, r: Request)
      requires stream == s + data && |stream| <= |b| && Untouched(s, b, startLine) && Tied(b, r, startLine)
      requires SameOutside(b, c, |s|, |stream|) && c[|s|..|stream|] == data
      ensures Untouched(stream, c, startLine) && Tied(c, r, startLine)
    {
      assert Untouched(stream, c, startLine) by {
        assert |stream| == |s| + |data|;
        UntouchedGrows(s, b, c, startLine, data);
      }
      assert Tied(c, r, startLine) by { TiedFrame(b, c, r, startLine, |s|, |stream|); }
    }

    lemma PastGrows(b: string, s: string, data: string, body: Outcome)
      requires stream == s + data && |b| == READ_BUFFER_SIZE && |stream| == readIdx <= READ_BUFFER_SIZE
      requires checkState.Content? && startLine <= checkedIdx <= |s| && body == Parse(NEW_REQUEST, s) && body.Body?
      requires contentLength == body.request.contentLength && |body.rest| <= |s| < checkedIdx + |body.rest|
      requires |s| - |body.rest| <= startLine
      requires startLine == |s| - |body.rest| ==> Untouched(s, b, startLine) && Tied(b, body.request, startLine)
      requires SameOutside(b, readBuf[..], |s|, |stream|) && readBuf[|s|..|stream|] == data
      ensures PastBody()
    {
      var c, rest := readBuf[..], body.rest + data;
      assert c[|s|..|stream|] == data;
      if startLine == |s| - |body.rest| { StartStays(b, c, s, data, body.request); }
      assert StartKept(c, body.request, |s| - |body.rest|, startLine);
      assert Parse(NEW_REQUEST, stream) == Body(body.request, rest) by { ParseExtends(NEW_REQUEST, s, data); }
      assert |stream| - |rest| == |s| - |body.rest|;
    }

    method Append(data: string)
      requires 0 <= readIdx == |stream| && |stream| + |data| <= readBuf.Length
      modifies this`readIdx, this`stream, readBuf
      ensures stream == old(stream) + data && readIdx == |stream|
      ensures SameOutside(old(readBuf[..]), readBuf[..], old(|stream|), |stream|) && readBuf[old(|stream|)..|stream|] == data
    {
      forall j | 0 <= j < |data| {
        readBuf[readIdx + j] := data[j];
      }
      readIdx := readIdx + |data|;
      stream := stream + data;
    }

    /** recv: the kernel writes `data` behind the bytes that are there. */
    method Receive(data: string)
      requires Ongoing() && |stream| + |data| <= READ_BUFFER_SIZE
      modifies this`readIdx, this`stream, readBuf
      ensures stream == old(stream) + data && Ongoing() && (PastBody() <==> old(PastBody()))
    {
      ghost var b, s, reading, past := readBuf[..], stream, Reading(), PastBody();
      Append(data);
      if reading {
        ReadingGrows(b, s, data);
      } else if past {
        PastGrows(b, s, data, Parse(NEW_REQUEST, s));
      } else {
        AwaitingGrows(b, s, data);
        AwaitingNotPast();
      }
    }

    /** One recv that returned bytes; it never returns more than there is room for. */
    method Take(data: string)
      requires Ongoing() && |stream| <= READ_BUFFER_SIZE
      modifies this`readIdx, this`stream, readBuf
      ensures Ongoing() && (PastBody() <==> old(PastBody()))
      ensures |old(stream)| + |data| <= READ_BUFFER_SIZE ==> stream == old(stream) + data
      ensures |old(stream)| + |data| > READ_BUFFER_SIZE ==> readIdx == READ_BUFFER_SIZE
    {
      var room := READ_BUFFER_SIZE - readIdx;
      assert |data| <= room ==> data[..|data|] == data;
      Receive(data[..if |data| <= room then |data| else room]);
    }

    /** read_once in level-triggered mode: one recv. A failed one moves `m_read_idx` back by one. */
    method ReadLevel(answer: Recv) returns (ok: bool)
      requires Ongoing()
      modifies this`readIdx, this`stream, readBuf
      ensures ok <==> answer.Bytes? && |old(stream)| < 2048
      ensures ok ==> Ongoing() && (PastBody() <==> old(PastBody()))
      ensures ok && |old(stream)| + |answer.data| <= READ_BUFFER_SIZE ==> stream == old(stream) + answer.data
      ensures !ok ==> stream == old(stream) && readBuf[..] == old(readBuf[..])
      ensures !ok ==> readIdx == |stream| - if |stream| < READ_BUFFER_SIZE && !answer.Closed? then 1 else 0
    {
      if readIdx >= READ_BUFFER_SIZE {
        return false;
      }
      match answer
      case Bytes(data) =>
        Take(data);
        return true;
      case Closed =>
        return false;
      case _ =>
        readIdx := readIdx - 1;
        return false;
    }

    /**
     read_once in edge-triggered mode: recv until EAGAIN. With the buffer full, recv is asked for
     no bytes: that is EAGAIN when nothing is waiting, and zero when there are bytes.
     */
    method ReadEdge(script: seq<Recv>) returns (ok: bool)
      requires Ongoing()
      modifies this`readIdx, this`stream, readBuf
      ensures ok <==> |old(stream)| < 2048 && Drains(script) && |old(stream)| + |BytesUntil(script)| <= 2048
      ensures ok ==> stream == old(stream) + BytesUntil(script)
      ensures ok ==> Ongoing() && (PastBody() <==> old(PastBody()))
    {
      ghost var s, past := stream, PastBody();
      var i := 0;
      assert script[0..] == script;
      if readIdx >= READ_BUFFER_SIZE {
        return false;
      }
      while i < |script| && script[i].Bytes?
        invariant i <= |script| && Ongoing() && (PastBody() <==> past)
        invariant Progress(s, script, stream, script[i..])
        decreases |script| - i
      {
        assert script[i..][1..] == script[i + 1..];
        NextBytes(s, script, stream, script[i..]);
        var room := READ_BUFFER_SIZE - readIdx;
        Take(script[i].data);
        if |script[i].data| > room {
          return false;
        }
        i := i + 1;
      }
      return i == |script| || script[i].WouldBlock?;
    }

    /** No answer yet: what the stream means so far leaves the request open. */
    ghost predicate Settled(uncut: bool)
      reads this, readBuf
    {
      match Parse(NEW_REQUEST, stream)
      case More(r, _) => Reading() && request == r && uncut
      case Stuck(r, _) => Reading() && request == r && uncut
      case Body(r, rest) => if uncut then AwaitingBody() && |rest| < r.contentLength else PastBody()
      case _ => false
    }

    lemma SettledOngoing(uncut: bool)
      requires Settled(uncut)
      ensures Ongoing() && (PastBody() <==> !uncut)
    {
    }

    /** Nothing was answered to this read. */
    lemma NoAnswer(wasUncut: bool, from: nat, checked: nat)
      requires Answers(NoRequest, !wasUncut, from, checked) && |stream| <= READ_BUFFER_SIZE
      requires !wasUncut ==> Parse(NEW_REQUEST, stream).Body?
      ensures Settled(wasUncut && EndsWell(stream))
    {
    }

    /** What the pieces lead to when the stream has a body, which starts at `pos`. */
    ghost predicate ServedBody(code: HttpCode, r: Request, rest: string, pos: int, uncut: bool)
      reads this, readBuf
    {
      && (0 < r.contentLength <= |rest| && uncut ==>
            if pos + r.contentLength < READ_BUFFER_SIZE then code == DoRequest && BodyRead(r, rest) else code == Fault)
      && (|rest| < r.contentLength <= INT_MAX - READ_BUFFER_SIZE ==> code == NoRequest)
      && (|rest| == r.contentLength && !uncut ==> code == NoRequest)
      && (code == DoRequest && 0 < r.contentLength ==> string_ >= pos && (string_ == pos ==> BodyRead(r, rest)))
    }

    /** What the pieces of `all` lead to, however they cut it. */
    ghost predicate Served(code: HttpCode, all: string, uncut: bool)
      reads this, readBuf
    {
      match Parse(NEW_REQUEST, all)
      case More(r, _) => code == NoRequest && Reading() && request == r
      case Stuck(r, _) => code == NoRequest && Reading() && request == r
      case Rejected => code == BadRequest
      case Ready(r, _) => code == DoRequest && Tied(readBuf[..], r, startLine)
      case Body(r, rest) => ServedBody(code, r, rest, |all| - |rest|, uncut)
    }

    lemma SettledAtStart()
      requires Reading() && stream == [] && request == NEW_REQUEST
      ensures Settled(Uncut([])) && stream == Concat([])
    {
    }

    lemma ServedAtEnd(uncut: bool)
      requires Settled(uncut)
      ensures Served(NoRequest, stream, uncut)
    {
    }

    lemma BodyStaysRead(r: Request, rest: string, t: string)
      requires BodyRead(r, rest)
      ensures BodyRead(r, rest + t)
    {
      assert (rest + t)[..r.contentLength] == rest[..r.contentLength];
    }

    /** An answer to a body stands when more bytes follow. */
    lemma OnTimeServed(code: HttpCode, r: Request, rest: string, t: string, uncut: bool)
      requires |rest| <= |stream| && BodyAnswer(code, r, rest) && code != NoRequest && |stream| + |t| <= READ_BUFFER_SIZE
      requires |rest| >= r.contentLength && t == [] ==> uncut
      ensures ServedBody(code, r, rest + t, |stream| - |rest|, uncut)
    {
      if 0 < r.contentLength <= |rest| && code == DoRequest { BodyStaysRead(r, rest, t); }
    }

    lemma LateServed(code: HttpCode, r: Request, rest: string, t: string, from: nat, checked: nat)
      requires |rest| <= |stream| && LateAnswer(code, r, rest, from, checked) && code != NoRequest
      requires |stream| + |t| <= READ_BUFFER_SIZE
      ensures ServedBody(code, r, rest + t, |stream| - |rest|, false)
    {
      if code == DoRequest && 0 < r.contentLength && from == |stream| - |rest| { BodyStaysRead(r, rest, t); }
    }

    /** An answer before the last byte stands. */
    lemma ServedEarly(code: HttpCode, wasUncut: bool, t: string, uncut: bool, from: nat, checked: nat)
      requires Answers(code, !wasUncut, from, checked) && code != NoRequest && |stream| + |t| <= READ_BUFFER_SIZE
      requires uncut ==> wasUncut
      requires wasUncut && EndsWell(stream) && t == [] ==> uncut
      ensures Served(code, stream + t, uncut)
    {
      ParseExtends(NEW_REQUEST, stream, t);
      var before := Parse(NEW_REQUEST, stream);
      if before.Body? {
        if wasUncut {
          OnTimeServed(code, before.request, before.rest, t, uncut);
        } else {
          LateServed(code, before.request, before.rest, t, from, checked);
        }
      }
    }

    /** One read and the process_read that follows it. */
    method ServePiece(piece: string, ghost wasUncut: bool) returns (code: HttpCode)
      requires Settled(wasUncut) && |stream| + |piece| <= READ_BUFFER_SIZE && heard
      requires piece != []
      modifies this`checkedIdx, this`startLine, this`url, this`version, this`method_, this`cgi, this`checkState,
               this`linger, this`contentLength, this`host, this`string_, this`request, this`readIdx, this`stream,
               this`loads, this`heard, readBuf
      ensures (code == Disturbed <==> !heard) && (old(loads) == [] ==> heard && loads == [])
      ensures stream == old(stream) + piece
      ensures heard ==> if code == NoRequest then Settled(wasUncut && EndsWell(stream))
                        else Answers(code, !wasUncut, old(startLine), old(checkedIdx))
    {
      ghost var from, checked := startLine, checkedIdx;
      SettledOngoing(wasUncut);
      var ok := ReadLevel(Bytes(piece));
      code := ProcessRead();
      if code == NoRequest {
        NoAnswer(wasUncut, from, checked);
      }
    }

    /** The same for piece `i`: an answer to it is the answer to all. */
    method ServeNext(pieces: seq<string>, i: nat) returns (code: HttpCode)
      requires i < |pieces| && |Concat(pieces)| <= READ_BUFFER_SIZE && forall j | 0 <= j < |pieces| :: pieces[j] != []
      requires stream == Concat(pieces[..i]) && Settled(Uncut(pieces[..i])) && heard
      modifies this`checkedIdx, this`startLine, this`url, this`version, this`method_, this`cgi, this`checkState,
               this`linger, this`contentLength, this`host, this`string_, this`request, this`readIdx, this`stream,
               this`loads, this`heard, readBuf
      ensures (code == Disturbed <==> !heard) && (old(loads) == [] ==> heard && loads == [])
      ensures heard ==>
                if code == NoRequest then stream == Concat(pieces[..i + 1]) && Settled(Uncut(pieces[..i + 1]))
                else Served(code, Concat(pieces), Uncut(pieces))
    {
      ghost var wasUncut := Uncut(pieces[..i]);
      ghost var t := AtPiece(pieces, i);
      ghost var from, checked := startLine, checkedIdx;
      code := ServePiece(pieces[i], wasUncut);
      if code != NoRequest && code != Disturbed {
        ServedEarly(code, wasUncut, t, Uncut(pieces), from, checked);
      }
    }

    /**
     Main result: the reads of one request, in whatever pieces its bytes come, by a worker whose
     loads of the shared offset find what it stored; one that does not is `Disturbed`. Up to the
     blank line the answer and the fields depend on the bytes alone. A body of the announced length
     is handed on, whole, if and only if no piece ends badly inside it.
     */
    method Serve(pieces: seq<string>) returns (code: HttpCode)
      requires Reading() && stream == [] && request == NEW_REQUEST && heard
      requires |Concat(pieces)| <= READ_BUFFER_SIZE && forall j | 0 <= j < |pieces| :: pieces[j] != []
      modifies this`checkedIdx, this`startLine, this`url, this`version, this`method_, this`cgi, this`checkState,
               this`linger, this`contentLength, this`host, this`string_, this`request, this`readIdx, this`stream,
               this`loads, this`heard, readBuf
      ensures (code == Disturbed <==> !heard) && (old(loads) == [] ==> heard && loads == [])
      ensures heard ==> Served(code, Concat(pieces), Uncut(pieces))
    {
      var i := 0;
      code := NoRequest;
      assert pieces[..0] == [];
      SettledAtStart();
      while i < |pieces|
        invariant i <= |pieces| && stream == Concat(pieces[..i])
        invariant Settled(Uncut(pieces[..i])) && code == NoRequest && heard && (old(loads) == [] ==> loads == [])
      {
        code := ServeNext(pieces, i);
        if code != NoRequest {
          return;
        }
        i := i + 1;
      }
      assert pieces[..i] == pieces;
      ServedAtEnd(Uncut(pieces));
    }

    /**
     A printed request, whose last length header announces its body, is issued by an undisturbed
     worker if and only if the body is empty, or not badly cut and ended before the last byte of
     the buffer; the fields then have the printed values. Where it ends with the buffer, its
     terminator is written outside.
     */
    lemma ServedAsPrinted(code: HttpCode, p: StartLine, hs: seq<HeaderLine>, body: string, uncut: bool)
      requires WellFormedStart(p) && forall i | 0 <= i < |hs| :: WellFormedHeader(hs[i])
      requires Apply(Requested(p), hs).contentLength == |body|
      requires |Print(p, hs, body)| <= READ_BUFFER_SIZE
      requires heard ==> Served(code, Print(p, hs, body), uncut)
      ensures heard ==> code == (if body == [] then DoRequest
                                 else if !uncut then NoRequest
                                 else if |Print(p, hs, body)| < READ_BUFFER_SIZE then DoRequest
                                 else Fault)
      ensures heard && code == DoRequest ==>
                var r := Apply(Requested(p), hs);
                if body == [] then Tied(readBuf[..], r, startLine) else BodyRead(r.(phase := Content), body)
    {
      PrintThenParse(p, hs, body);
    }
  }
}
