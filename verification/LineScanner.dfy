/**
 parse_line as a function of the buffer, and what it finds when it is resumed anywhere inside
 a line of the stream.
 */
module LineScanner {
  import opened Text
  import opened RequestGrammar
  import opened Wrappers

  datatype LineStatus = LineOk | LineBad | LineOpen

  /** What parse_line leaves: its status, the new `m_checked_idx` and the buffer. */
  datatype LineResult = LineResult(status: LineStatus, checked: nat, buf: string)

  /** parse_line, when the first CR or LF from `m_checked_idx` on is at `k`. */
  function LineAt(b: string, k: nat, read: nat): LineResult
    requires k <= read <= |b|
  {
    if k == read then LineResult(LineOpen, k, b)
    else if b[k] == CR then
      if k + 1 == read then LineResult(LineOpen, k, b)
      else if b[k + 1] == LF then LineResult(LineOk, k + 2, b[k := NUL][k + 1 := NUL])
      else LineResult(LineBad, k, b)
    else if k > 1 && b[k - 1] == CR then LineResult(LineOk, k + 1, b[k - 1 := NUL][k := NUL])
    else LineResult(LineBad, k, b)
  }

  function Scan(b: string, checked: nat, read: nat): LineResult
    requires checked <= read <= |b|
  {
    LineAt(b, checked + BreakIndex(b[checked..read]), read)
  }

  lemma ScanBounds(b: string, checked: nat, read: nat)
    requires checked <= read <= |b|
    ensures var res := Scan(b, checked, read);
            checked <= res.checked <= read && |res.buf| == |b| && (res.status == LineOk ==> res.checked > checked)
  {
  }

  lemma BreakIndexStep(b: string, i: nat, read: nat)
    requires i < read <= |b| && !IsBreak(b[i])
    ensures i + BreakIndex(b[i..read]) == i + 1 + BreakIndex(b[i + 1..read])
  {
    assert b[i..read][1..] == b[i + 1..read];
  }

  lemma {:induction false} BreakIndexSkips(text: string, s: string)
    requires NoBreak(text)
    ensures BreakIndex(text + s) == |text| + BreakIndex(s)
  {
    if text == [] {
      assert text + s == s;
    } else {
      assert (text + s)[1..] == text[1..] + s && (text + s)[0] == text[0];
      BreakIndexSkips(text[1..], s);
    }
  }

  lemma {:induction false} BreakIndexIsFirst(s: string)
    ensures NoBreak(s[..BreakIndex(s)]) && (BreakIndex(s) < |s| ==> IsBreak(s[BreakIndex(s)]))
  {
    if s != [] && !IsBreak(s[0]) {
      BreakIndexIsFirst(s[1..]);
      assert s[..BreakIndex(s)] == [s[0]] + s[1..][..BreakIndex(s[1..])];
    }
  }

  /** The buffer still holds the stream from `start` on. */
  predicate Untouched(stream: string, b: string, start: nat) {
    start <= |stream| <= |b| && forall j | start <= j < |stream| :: b[j] == stream[j]
  }

  lemma ScanFinds(stream: string, b: string, start: nat, checked: nat)
    requires Untouched(stream, b, start) && start <= checked <= |stream| && NoBreak(stream[start..checked])
    ensures checked + BreakIndex(b[checked..|stream|]) == start + BreakIndex(stream[start..])
  {
    assert stream[start..] == stream[start..checked] + stream[checked..];
    BreakIndexSkips(stream[start..checked], stream[checked..]);
    assert b[checked..|stream|] == stream[checked..];
  }

  lemma NextLineAt(stream: string, start: nat, k: nat)
    requires start <= |stream| && k == start + BreakIndex(stream[start..])
    ensures start <= k <= |stream| && NoBreak(stream[start..k]) && (k < |stream| ==> IsBreak(stream[k]))
    ensures k > start ==> !IsBreak(stream[k - 1])
    ensures NextLine(stream[start..]) ==
            if k == |stream| then Open
            else if stream[k] == LF then Bad
            else if k + 1 == |stream| then Open
            else if stream[k + 1] == LF then Complete(stream[start..k], stream[k + 2..])
            else Bad
  {
    var rest := stream[start..];
    BreakIndexIsFirst(rest);
    assert rest[..k - start] == stream[start..k];
    assert k > start ==> stream[k - 1] == stream[start..k][k - 1 - start];
    assert k + 2 <= |stream| ==> rest[k - start + 2..] == stream[k + 2..];
  }

  /** What parse_line leaves when it has not completed a line that begins at `start`. */
  predicate StillInLine(res: LineResult, stream: string, b: string, start: nat, checked: nat)
    requires start <= |stream|
  {
    res.buf == b && start <= checked <= res.checked <= |stream| && NoBreak(stream[start..res.checked])
  }

  lemma StopsAt(stream: string, b: string, start: nat, k: nat)
    requires Untouched(stream, b, start) && k == start + BreakIndex(stream[start..])
    requires (start > 0 ==> b[start - 1] == NUL) && !NextLine(stream[start..]).Complete?
    ensures k <= |stream| && NoBreak(stream[start..k])
    ensures LineAt(b, k, |stream|) == LineResult(if NextLine(stream[start..]).Open? then LineOpen else LineBad, k, b)
  {
    NextLineAt(stream, start, k);
    assert k > start ==> b[k - 1] == stream[k - 1];
  }

  /**
   parse_line, resumed anywhere inside a line, sees what a scan of the whole rest of the
   stream sees; `start` is where the line begins. First case: the line is not complete.
   */
  lemma ScanStops(stream: string, b: string, start: nat, checked: nat)
    requires Untouched(stream, b, start) && start <= checked <= |stream| && NoBreak(stream[start..checked])
    requires (start > 0 ==> b[start - 1] == NUL) && !NextLine(stream[start..]).Complete?
    ensures var res := Scan(b, checked, |stream|);
            && res.status == (if NextLine(stream[start..]).Open? then LineOpen else LineBad)
            && StillInLine(res, stream, b, start, checked)
  {
    ScanFinds(stream, b, start, checked);
    StopsAt(stream, b, start, start + BreakIndex(stream[start..]));
  }

  /** Second case: a complete line, whose CR LF parse_line overwrites. */
  lemma ScanCompletes(stream: string, b: string, start: nat, checked: nat, text: string, rest: string)
    requires Untouched(stream, b, start) && start <= checked <= |stream| && NoBreak(stream[start..checked])
    requires NextLine(stream[start..]) == Complete(text, rest)
    ensures var k := start + |text|;
            && k + 2 <= |stream| && text == stream[start..k] && rest == stream[k + 2..] && NoBreak(text)
            && stream[k] == CR && stream[k + 1] == LF
            && Scan(b, checked, |stream|) == LineResult(LineOk, k + 2, b[k := NUL][k + 1 := NUL])
  {
    ScanFinds(stream, b, start, checked);
    NextLineAt(stream, start, start + BreakIndex(stream[start..]));
  }

  lemma ThroughLine(stream: string, start: nat, k: nat)
    requires start <= k && k + 2 <= |stream| && stream[k] == CR && stream[k + 1] == LF
    ensures stream[..k + 2] == stream[..start] + stream[start..k] + CRLF
  {
  }

  lemma ThroughNextLine(stream: string, start: nat, text: string, rest: string)
    requires start <= |stream| && NextLine(stream[start..]) == Complete(text, rest)
    ensures start + |text| + 2 <= |stream|
    ensures stream[..start + |text| + 2] == stream[..start] + text + CRLF
  {
    var k := start + BreakIndex(stream[start..]);
    NextLineAt(stream, start, k);
    assert text == stream[start..k];
    ThroughLine(stream, start, k);
  }

  /** The string value of a pointer into `b`, or null; it ends before `limit`. */
  predicate PointsTo(b: string, p: int, value: Option<string>, limit: nat) {
    match value
    case None => p == -1
    case Some(v) => Holds(b, p, v) && p + |v| < limit
  }

  /** Two buffers that differ at most in [lo, hi). */
  predicate SameOutside(b: string, c: string, lo: int, hi: int) {
    |b| == |c| && forall j | 0 <= j < |b| && !(lo <= j < hi) :: c[j] == b[j]
  }

  lemma PointsToFrame(b: string, c: string, p: int, value: Option<string>,
                      from: nat, lo: nat, hi: int, limit: nat)
    requires PointsTo(b, p, value, from) && SameOutside(b, c, lo, hi) && from <= lo && from <= limit
    ensures PointsTo(c, p, value, limit)
  {
  }

  lemma SameOutsideBoth(b: string, c: string, d: string, lo: int, mid: int, hi: int)
    requires lo <= mid && SameOutside(b, c, lo, hi) && SameOutside(c, d, mid, hi)
    ensures SameOutside(b, d, lo, hi)
  {
  }

  lemma UntouchedFrame(stream: string, b: string, c: string, lo: int, hi: nat)
    requires Untouched(stream, b, hi) && SameOutside(b, c, lo, hi)
    ensures Untouched(stream, c, hi)
  {
  }

  lemma UntouchedGrows(s: string, b: string, c: string, start: nat, data: string)
    requires Untouched(s, b, start) && |s| + |data| <= |b|
    requires SameOutside(b, c, |s|, |s| + |data|) && c[|s|..|s| + |data|] == data
    ensures Untouched(s + data, c, start)
  {
    forall j | start <= j < |s| + |data| ensures c[j] == (s + data)[j] {
      assert j >= |s| ==> c[|s|..|s| + |data|][j - |s|] == c[j];
    }
  }

  lemma TerminatedOutside(stream: string, b: string, start: nat, k: nat)
    requires Untouched(stream, b, start) && start <= k && k + 2 <= |stream|
    ensures var c := b[k := NUL][k + 1 := NUL];
            SameOutside(b, c, start, k + 2) && Untouched(stream, c, k + 2)
  {
  }

  /** What a completed line leaves: its text as a C string at `start`. */
  lemma TextLeft(stream: string, b: string, c: string, start: nat, text: string)
    requires Untouched(stream, b, start) && start + |text| < |stream| && text == stream[start..start + |text|]
    requires |c| == |b| && c[start + |text|] == NUL && forall j | start <= j < start + |text| :: c[j] == b[j]
    ensures Holds(c, start, CStr(text))
  {
    forall j {:trigger text[j]} | 0 <= j < |text| ensures c[start + j] == text[j] {
      assert stream[start + j] == text[j];
    }
    CStrHolds(c, start, text);
  }

  /** What is left of a line, `k` being where its text ends, when its CR LF is overwritten. */
  lemma LineOverwritten(stream: string, b: string, start: nat, text: string, k: nat)
    requires Untouched(stream, b, start) && k == start + |text| && k + 2 <= |stream| && text == stream[start..k]
    ensures var c := b[k := NUL][k + 1 := NUL];
            && Holds(c, start, CStr(text)) && |CStr(text)| <= |text| && c[k + 1] == NUL
            && SameOutside(b, c, start, k + 2) && Untouched(stream, c, k + 2)
  {
    var c := b[k := NUL][k + 1 := NUL];
    assert forall j | start <= j < k :: c[j] == b[j];
    TextLeft(stream, b, c, start, text);
    TerminatedOutside(stream, b, start, k);
  }

  /** The same for the whole state that a completed line leaves. */
  lemma LineCompleted(stream: string, b: string, start: nat, checked: nat, text: string, rest: string)
    requires Untouched(stream, b, start) && start <= checked <= |stream| && NoBreak(stream[start..checked])
    requires NextLine(stream[start..]) == Complete(text, rest)
    ensures var (res, end) := (Scan(b, checked, |stream|), start + |text| + 2);
            && res.status == LineOk && res.checked == end <= |stream| && NoBreak(text) && rest == stream[end..]
            && Holds(res.buf, start, CStr(text)) && |CStr(text)| <= |text| && |res.buf| == |b| && res.buf[end - 1] == NUL
            && SameOutside(b, res.buf, start, end) && Untouched(stream, res.buf, end)
  {
    ScanCompletes(stream, b, start, checked, text, rest);
    LineOverwritten(stream, b, start, text, start + |text|);
  }

  /** parse_line in plain words: `k` is the first CR or LF from `checked` on, or the end of what was read. */
  lemma ScanExactly(b: string, checked: nat, k: nat, read: nat)
    requires checked <= k <= read <= |b|
    requires forall i | checked <= i < k :: b[i] != '\r' && b[i] != '\n'
    requires k < read ==> b[k] == '\r' || b[k] == '\n'
    ensures var (res, follows, behind) := (Scan(b, checked, read), k + 1 < read && b[k] == '\r' && b[k + 1] == '\n',
                                           k < read && b[k] == '\n' && k > 1 && b[k - 1] == '\r');
            && (res.status == LineOk <==> follows || behind)
            && (res.status == LineOpen <==> k == read || (b[k] == '\r' && k + 1 == read))
            && (follows ==> res.checked == k + 2 && res.buf == b[k := '\0'][k + 1 := '\0'])
            && (behind ==> res.checked == k + 1 && res.buf == b[k - 1 := '\0'][k := '\0'])
            && (!follows && !behind ==> res.checked == k && res.buf == b)
  {
    BreakIndexIs(b[checked..read], k - checked);
  }

  lemma {:induction false} BreakIndexIs(s: string, k: nat)
    requires k <= |s| && (forall i | 0 <= i < k :: !IsBreak(s[i])) && (k < |s| ==> IsBreak(s[k]))
    ensures BreakIndex(s) == k
  {
    if k > 0 { BreakIndexIs(s[1..], k - 1); }
  }
}
