/**
 Requests as text: what the parser makes of one line, and of a whole stream of bytes read at
 once. Class HttpConn, which gets the bytes in pieces and works in place, is proved against
 these functions.
 */
module RequestGrammar {
  import opened Text
  import opened Wrappers

  datatype Method = Get | Post

  datatype Phase = RequestLine | Header | Content

  /** The parsed fields of a connection. */
  datatype Request = Request(
    phase: Phase,
    method_: Method,
    cgi: bool,
    url: Option<string>,
    host: Option<string>,
    contentLength: int,
    linger: bool)

  const NEW_REQUEST := Request(RequestLine, Get, false, None, None, 0, false)

  const GET_NAME: string := "GET"
  const POST_NAME: string := "POST"
  const HTTP_VERSION: string := "HTTP/1.1"
  const INDEX_FILE: string := "judge.html"
  const CONNECTION: string := "Connection:"
  const KEEP_ALIVE: string := "keep-alive"
  const CONTENT_LENGTH: string := "Content-length:"
  const HOST: string := "Host:"

  // ---------- lines ----------

  predicate IsBreak(c: char) { c == CR || c == LF }

  predicate NoBreak(s: string) { forall i | 0 <= i < |s| :: !IsBreak(s[i]) }

  /** The first CR or LF, or the length. */
  function BreakIndex(s: string): (k: nat)
    ensures k <= |s|
  {
    if s == [] || IsBreak(s[0]) then 0 else 1 + BreakIndex(s[1..])
  }

  datatype Line = Complete(text: string, rest: string) | Open | Bad

  /** A line ends in CR LF. A CR at the end leaves it open, another CR or an LF makes it bad. */
  function NextLine(s: string): Line {
    var k := BreakIndex(s);
    if k == |s| then Open
    else if s[k] == LF then Bad
    else if k + 1 == |s| then Open
    else if s[k + 1] == LF then Complete(s[..k], s[k + 2..])
    else Bad
  }

  // ---------- one line ----------

  datatype LineEffect =
    | Continue(request: Request)
    | Reject
    | Finish(request: Request)      // blank line, no content to come
    | StartBody(request: Request)   // blank line, content to come

  /** The first word of a text, ended by a separator, and what is behind the separators. */
  datatype Word = Word(text: string, rest: string) | NoWord

  function FirstWord(t: string): Word {
    var a := SepIndex(t);
    if a == |t| then NoWord else Word(t[..a], SkipSeps(t[a + 1..]))
  }

  /** Method, separators, URL, separators, version. */
  predicate Accepts(t: string) {
    && FirstWord(t).Word?
    && (EqNoCase(FirstWord(t).text, GET_NAME) || EqNoCase(FirstWord(t).text, POST_NAME))
    && FirstWord(FirstWord(t).rest).Word?
    && EqNoCase(FirstWord(FirstWord(t).rest).rest, HTTP_VERSION)
  }

  predicate IsPost(t: string)
    requires Accepts(t)
  {
    !EqNoCase(FirstWord(t).text, GET_NAME)
  }

  /** A URL of one character gets the index file. */
  function UrlOf(t: string): string
    requires Accepts(t)
  {
    var url := FirstWord(FirstWord(t).rest).text;
    if |url| == 1 then url + INDEX_FILE else url
  }

  function RequestLineEffect(r: Request, t: string): LineEffect {
    if !Accepts(t) then Reject
    else
      Continue(r.(phase := Header, method_ := if IsPost(t) then Post else Get, cgi := IsPost(t) || r.cgi,
                  url := Some(UrlOf(t))))
  }

  function HeaderEffect(r: Request, t: string): LineEffect {
    if t == [] then
      if r.contentLength != 0 then StartBody(r.(phase := Content)) else Finish(r)
    else if StartsNoCase(t, CONNECTION) then
      Continue(if EqNoCase(SkipSeps(t[|CONNECTION|..]), KEEP_ALIVE) then r.(linger := true) else r)
    else if StartsNoCase(t, CONTENT_LENGTH) then
      Continue(r.(contentLength := ToInt(Atol(SkipSeps(t[|CONTENT_LENGTH|..])))))
    else if StartsNoCase(t, HOST) then
      Continue(r.(host := Some(SkipSeps(t[|HOST|..]))))
    else Continue(r)
  }

  /** The effect of a line, of which only the part before a NUL is looked at. */
  function LineStep(r: Request, text: string): LineEffect {
    if r.phase.RequestLine? then RequestLineEffect(r, CStr(text)) else HeaderEffect(r, CStr(text))
  }

  /** Only a blank line starts the content. */
  lemma PhaseAfter(r: Request, text: string)
    requires !r.phase.Content? && (r.phase.RequestLine? ==> r.host.None?)
    ensures match LineStep(r, text)
            case Continue(q) => q.phase.Header?
            case StartBody(q) => q.phase.Content? && q.contentLength != 0
            case Finish(q) => q.phase.Header?
            case Reject => r.phase.RequestLine?
  {
  }

  // ---------- the whole stream ----------

  datatype Outcome =
    | More(request: Request, rest: string)    // `rest` has no complete line
    | Stuck(request: Request, rest: string)   // `rest` starts with a bad line
    | Rejected
    | Ready(request: Request, rest: string)   // complete without content
    | Body(request: Request, rest: string)    // `rest` follows the blank line

  /** The reference: what a stream of bytes means, up to the blank line. */
  function Parse(r: Request, s: string): Outcome
    decreases |s|
  {
    match NextLine(s)
    case Open => More(r, s)
    case Bad => Stuck(r, s)
    case Complete(text, rest) =>
      match LineStep(r, text)
      case Continue(q) => Parse(q, rest)
      case Reject => Rejected
      case Finish(q) => Ready(q, rest)
      case StartBody(q) => Body(q, rest)
  }

  /** Names a continuation of the stream, so that it can be asked about. */
  ghost predicate Next(s: string) { true }

  /** From state `r0`, `prefix` leads the parser to state `r`, whatever comes next. */
  ghost predicate Leads(r0: Request, prefix: string, r: Request) {
    forall s: string {:trigger Next(s)} :: Next(s) ==> Parse(r0, prefix + s) == Parse(r, s)
  }

  lemma LeadsTo(r0: Request, prefix: string, r: Request, s: string)
    requires Leads(r0, prefix, r)
    ensures Parse(r0, prefix + s) == Parse(r, s)
  {
    assert Next(s);
  }

  lemma LeadsNothing(r0: Request)
    ensures Leads(r0, [], r0)
  {
    forall s: string | Next(s) ensures Parse(r0, [] + s) == Parse(r0, s) {
      assert [] + s == s;
    }
  }

  lemma {:induction false} BreakIndexAt(text: string, s: string)
    requires NoBreak(text) && s != [] && IsBreak(s[0])
    ensures BreakIndex(text + s) == |text|
  {
    if text == [] {
      assert text + s == s;
    } else {
      assert (text + s)[1..] == text[1..] + s && (text + s)[0] == text[0];
      BreakIndexAt(text[1..], s);
    }
  }

  lemma NextLineComplete(text: string, s: string)
    requires NoBreak(text)
    ensures NextLine(text + CRLF + s) == Complete(text, s)
  {
    assert text + CRLF + s == text + (CRLF + s);
    BreakIndexAt(text, CRLF + s);
    assert (text + CRLF + s)[..|text|] == text && (text + CRLF + s)[|text| + 2..] == s;
  }

  lemma ParseContinues(r: Request, text: string, q: Request, s: string)
    requires NoBreak(text) && LineStep(r, text) == Continue(q)
    ensures Parse(r, text + CRLF + s) == Parse(q, s)
  {
    NextLineComplete(text, s);
  }

  lemma Regroup(a: string, b: string, c: string)
    ensures a + b + c == a + (b + c)
  {
  }

  lemma Append3(a: string, b: string, c: string, d: string)
    ensures a + b + c + d == a + (b + c + d)
  {
  }

  lemma LeadsOnAt(r0: Request, prefix: string, r: Request, text: string, q: Request, s: string)
    requires Parse(r0, prefix + (text + CRLF + s)) == Parse(r, text + CRLF + s)
    requires NoBreak(text) && LineStep(r, text) == Continue(q)
    ensures Parse(r0, prefix + text + CRLF + s) == Parse(q, s)
  {
    Append3(prefix, text, CRLF, s);
    ParseContinues(r, text, q, s);
  }

  /** One more complete line moves the state on, again whatever comes next. */
  lemma LeadsOn(r0: Request, prefix: string, r: Request, text: string, q: Request)
    requires Leads(r0, prefix, r) && NoBreak(text) && LineStep(r, text) == Continue(q)
    ensures Leads(r0, prefix + text + CRLF, q)
  {
    forall s: string | Next(s) ensures Parse(r0, prefix + text + CRLF + s) == Parse(q, s) {
      LeadsTo(r0, prefix, r, text + CRLF + s);
      LeadsOnAt(r0, prefix, r, text, q, s);
    }
  }

  /** The stream up to `end` is `prefix`, which leads to `r`, and one more line. */
  ghost predicate LineRead(stream: string, end: nat, prefix: string, r: Request, text: string) {
    Leads(NEW_REQUEST, prefix, r) && NoBreak(text) && end <= |stream| && stream[..end] == prefix + text + CRLF
  }

  /** The line decides what the stream means. */
  lemma LineDecides(stream: string, end: nat, prefix: string, r: Request, text: string)
    requires LineRead(stream, end, prefix, r, text) && !LineStep(r, text).Continue?
    ensures Parse(NEW_REQUEST, stream) ==
            match LineStep(r, text)
            case Finish(q) => Ready(q, stream[end..])
            case StartBody(q) => Body(q, stream[end..])
            case _ => Rejected
  {
    var rest := stream[end..];
    assert stream == prefix + (text + CRLF + rest) by {
      assert stream == stream[..end] + rest;
      Append3(prefix, text, CRLF, rest);
    }
    LeadsTo(NEW_REQUEST, prefix, r, text + CRLF + rest);
    NextLineComplete(text, rest);
  }

  /** The state reached at `start` and the rest of the stream decide together. */
  lemma RestDecides(stream: string, start: nat, r: Request)
    requires start <= |stream| && Leads(NEW_REQUEST, stream[..start], r)
    ensures Parse(NEW_REQUEST, stream) == Parse(r, stream[start..])
  {
    LeadsTo(NEW_REQUEST, stream[..start], r, stream[start..]);
    assert stream[..start] + stream[start..] == stream;
  }

  // ---------- more bytes ----------

  lemma {:induction false} BreakIndexExtends(s: string, t: string)
    requires BreakIndex(s) < |s|
    ensures BreakIndex(s + t) == BreakIndex(s)
  {
    if !IsBreak(s[0]) {
      assert (s + t)[1..] == s[1..] + t;
      BreakIndexExtends(s[1..], t);
    }
  }

  /** More bytes neither take a line back nor repair a bad one. */
  lemma NextLineExtends(s: string, t: string)
    ensures match NextLine(s)
            case Complete(text, rest) => NextLine(s + t) == Complete(text, rest + t)
            case Bad => NextLine(s + t) == Bad
            case Open => true
  {
    var k := BreakIndex(s);
    if k < |s| {
      BreakIndexExtends(s, t);
      if NextLine(s).Complete? {
        assert (s + t)[..k] == s[..k] && (s + t)[k + 2..] == s[k + 2..] + t;
      }
    }
  }

  /** What a stream has come to mean stays so when more bytes arrive. */
  lemma {:induction false} ParseExtends(r: Request, s: string, t: string)
    ensures match Parse(r, s)
            case More(q, rest) => Parse(r, s + t) == Parse(q, rest + t)
            case Stuck(q, rest) => Parse(r, s + t) == Stuck(q, rest + t)
            case Rejected => Parse(r, s + t) == Rejected
            case Ready(q, rest) => Parse(r, s + t) == Ready(q, rest + t)
            case Body(q, rest) => Parse(r, s + t) == Body(q, rest + t)
    decreases |s|
  {
    NextLineExtends(s, t);
    match NextLine(s)
    case Open =>
    case Bad =>
    case Complete(text, rest) =>
      if LineStep(r, text).Continue? {
        ParseExtends(LineStep(r, text).request, rest, t);
      }
  }

  /** What is left over is the end of the stream. */
  lemma {:induction false} RestOfStream(r: Request, s: string)
    ensures Parse(r, s).Body? ==> |Parse(r, s).rest| <= |s| && Parse(r, s).rest == s[|s| - |Parse(r, s).rest|..]
    decreases |s|
  {
    if NextLine(s).Complete? && LineStep(r, NextLine(s).text).Continue? {
      RestOfStream(LineStep(r, NextLine(s).text).request, NextLine(s).rest);
    }
  }

  lemma SuffixGrows(s: string, data: string, pos: nat)
    requires pos <= |s|
    ensures s[pos..] + data == (s + data)[pos..]
  {
  }

  lemma BodyExtends(r0: Request, s: string, data: string, pos: nat, r: Request)
    requires pos <= |s| && Parse(r0, s) == Body(r, s[pos..])
    ensures Parse(r0, s + data) == Body(r, (s + data)[pos..])
  {
    ParseExtends(r0, s, data);
    SuffixGrows(s, data, pos);
  }

  // ---------- names that differ ----------

  lemma StartsAt(t: string, p: string, k: nat)
    requires StartsNoCase(t, p) && k < |p|
    ensures ToLower(t[k]) == ToLower(p[k])
  {
    assert t[..|p|][k] == t[k];
  }

  lemma NotThatHeader(t: string, name: string, other: string, k: nat)
    requires k < |name| && k < |other| && StartsNoCase(t, name) && ToLower(name[k]) != ToLower(other[k])
    ensures !StartsNoCase(t, other)
  {
    StartsAt(t, name, k);
    if StartsNoCase(t, other) { StartsAt(t, other, k); }
  }

  lemma AppendNothing(s: string)
    ensures s + [] == s
  {
  }

  lemma ToIntOfInt(v: int)
    requires 0 <= v <= INT_MAX
    ensures ToInt(v) == v
  {
  }
}
