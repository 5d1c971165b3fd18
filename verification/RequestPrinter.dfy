/**
 Requests as clients print them: names in any case, blanks and tabs in any number. Parsing
 what was printed gives back what was meant. The texts are written out here once more, apart
 from those that the parser compares with.
 */
module RequestPrinter {
  import opened Text
  import opened RequestGrammar
  import opened Wrappers

  /** The request line: method name, target and version, with separators between them. */
  datatype StartLine = StartLine(method_: Method, name: string, gap: string, url: string, space: string, version: string)

  /** The headers that the parser knows, and any other line; a length may be any number, with `tail` behind it. */
  datatype HeaderLine =
    | ConnectionHeader(name: string, gap: string, value: string)
    | LengthHeader(name: string, gap: string, sign: Sign, n: nat, tail: string)
    | HostHeader(name: string, gap: string, value: string)
    | OtherHeader(line: string)

  predicate Separators(s: string) { forall i | 0 <= i < |s| :: s[i] == ' ' || s[i] == '\t' }

  predicate NoSeparators(s: string) { forall i | 0 <= i < |s| :: s[i] != ' ' && s[i] != '\t' }

  /** Text that fits in a line. */
  predicate Printable(s: string) { NoBreak(s) && NUL !in s }

  /** A value that does not begin with a separator. */
  predicate Value(s: string) { Printable(s) && LeadingSeps(s) == 0 }

  predicate IsStart(p: StartLine) {
    && Variant(p.name, if p.method_.Get? then "GET" else "POST") && Variant(p.version, "HTTP/1.1")
    && p.gap != [] && Separators(p.gap) && p.space != [] && Separators(p.space) && p.url != [] && NoSeparators(p.url)
  }

  predicate WellFormedStart(p: StartLine) { IsStart(p) && Printable(p.url) }

  predicate IsKnown(line: string) {
    Begins(line, "Connection:") || Begins(line, "Content-length:") || Begins(line, "Host:")
  }

  predicate WellFormedHeader(h: HeaderLine) {
    match h
    case ConnectionHeader(name, gap, v) => Variant(name, "Connection:") && Separators(gap) && Value(v)
    case LengthHeader(name, gap, _, _, tail) =>
      Variant(name, "Content-length:") && Separators(gap) && Printable(tail) && (tail == [] || !IsDigit(tail[0]))
    case HostHeader(name, gap, v) => Variant(name, "Host:") && Separators(gap) && Value(v)
    case OtherHeader(line) => Printable(line) && line != [] && !IsKnown(line)
  }

  function RequestLineText(p: StartLine): string { p.name + p.gap + p.url + p.space + p.version }

  function HeaderText(h: HeaderLine): string {
    match h
    case ConnectionHeader(name, gap, v) => name + gap + v
    case LengthHeader(name, gap, sign, n, tail) => name + gap + (SignText(sign) + (Decimal(n) + tail))
    case HostHeader(name, gap, v) => name + gap + v
    case OtherHeader(line) => line
  }

  function PrintHeaders(hs: seq<HeaderLine>): string {
    if hs == [] then [] else HeaderText(hs[0]) + CRLF + PrintHeaders(hs[1..])
  }

  function Print(p: StartLine, hs: seq<HeaderLine>, body: string): string {
    RequestLineText(p) + CRLF + (PrintHeaders(hs) + (CRLF + body))
  }

  /** A long in an int: the number between the limits of an int that differs by a multiple of 2^32. */
  function AsInt(v: int): (i: int)
    ensures -0x8000_0000 <= i <= 0x7fff_ffff && (v - i) % 0x1_0000_0000 == 0
  {
    (v + 0x8000_0000) % 0x1_0000_0000 - 0x8000_0000
  }

  lemma AsIntExactly(v: int)
    ensures ToInt(v) == AsInt(v)
  {
  }

  /** What one header means. */
  function ApplyOne(r: Request, h: HeaderLine): Request {
    match h
    case ConnectionHeader(_, _, v) => if Variant(v, "keep-alive") then r.(linger := true) else r
    case LengthHeader(_, _, sign, n, _) => r.(contentLength := AsInt(Nearest(if sign.Minus? then 0 - n else n)))
    case HostHeader(_, _, v) => r.(host := Some(v))
    case OtherHeader(_) => r
  }

  /** What the headers mean: the last length and host win, one keep-alive is enough. */
  function Apply(r: Request, hs: seq<HeaderLine>): Request
    decreases |hs|
  {
    if hs == [] then r else Apply(ApplyOne(r, hs[0]), hs[1..])
  }

  /** A target of one character stands for the index file. */
  function Requested(p: StartLine): Request {
    Request(Header, p.method_, p.method_.Post?, Some(if |p.url| == 1 then p.url + "judge.html" else p.url), None, 0, false)
  }

  // ---------- words and gaps ----------

  lemma {:induction false} CStrWhole(s: string)
    requires NUL !in s
    ensures CStr(s) == s
  {
    if s != [] {
      assert s[0] in s && forall c | c in s[1..] :: c in s;
      CStrWhole(s[1..]);
    }
  }

  lemma {:induction false} SepIndexAt(a: string, rest: string)
    requires rest != [] && IsSep(rest[0]) && NoSeparators(a)
    ensures SepIndex(a + rest) == |a|
  {
    if a == [] {
      assert a + rest == rest;
    } else {
      assert (a + rest)[1..] == a[1..] + rest;
      SepIndexAt(a[1..], rest);
    }
  }

  /** A value behind any separators is found as it is. */
  lemma {:induction false} SkipGap(gap: string, v: string)
    requires Separators(gap) && LeadingSeps(v) == 0
    ensures LeadingSeps(gap + v) == |gap| && SkipSeps(gap + v) == v
  {
    if gap == [] {
      assert gap + v == v;
    } else {
      assert (gap + v)[1..] == gap[1..] + v;
      SkipGap(gap[1..], v);
      assert (gap + v)[|gap|..] == v;
    }
  }

  lemma FirstWordAt(word: string, gap: string, rest: string)
    requires NoSeparators(word) && gap != [] && Separators(gap) && LeadingSeps(rest) == 0
    ensures FirstWord(word + (gap + rest)) == Word(word, rest)
  {
    var t := word + (gap + rest);
    SepIndexAt(word, gap + rest);
    assert t[..|word|] == word && t[|word| + 1..] == gap[1..] + rest;
    SkipGap(gap[1..], rest);
  }

  lemma {:induction false} SepIndexStops(s: string)
    ensures NoSeparators(s[..SepIndex(s)]) && (SepIndex(s) < |s| ==> IsSep(s[SepIndex(s)]))
  {
    if s != [] && !IsSep(s[0]) {
      SepIndexStops(s[1..]);
      assert s[..SepIndex(s)] == [s[0]] + s[1..][..SepIndex(s[1..])];
    }
  }

  lemma {:induction false} LeadingSepsStop(s: string)
    ensures Separators(s[..LeadingSeps(s)]) && LeadingSeps(SkipSeps(s)) == 0
  {
    if s != [] && IsSep(s[0]) {
      LeadingSepsStop(s[1..]);
      assert s[..LeadingSeps(s)] == [s[0]] + s[1..][..LeadingSeps(s[1..])];
      assert SkipSeps(s) == SkipSeps(s[1..]);
    } else {
      assert SkipSeps(s) == s;
    }
  }

  /** A text taken apart at `a`, where `skip` characters follow that are stepped over. */
  lemma TakenApart(t: string, a: nat, skip: nat)
    requires a + 1 + skip <= |t|
    ensures t == t[..a] + (([t[a]] + t[a + 1..][..skip]) + t[a + 1..][skip..])
  {
    var after := t[a + 1..];
    Regroup([t[a]], after[..skip], after[skip..]);
    assert after[..skip] + after[skip..] == after;
    assert t[..a] + ([t[a]] + after) == t;
  }

  lemma OneMoreSeparator(c: char, s: string)
    requires IsSep(c) && Separators(s)
    ensures Separators([c] + s)
  {
  }

  /** The separators behind a first word. */
  function GapAfter(t: string): string
    requires FirstWord(t).Word?
  {
    var a := SepIndex(t);
    [t[a]] + t[a + 1..][..LeadingSeps(t[a + 1..])]
  }

  /** A first word is followed by separators. */
  lemma FirstWordSplits(t: string)
    requires FirstWord(t).Word?
    ensures GapAfter(t) != [] && Separators(GapAfter(t)) && t == FirstWord(t).text + (GapAfter(t) + FirstWord(t).rest)
    ensures NoSeparators(FirstWord(t).text) && LeadingSeps(FirstWord(t).rest) == 0
  {
    var a := SepIndex(t);
    SepIndexStops(t);
    LeadingSepsStop(t[a + 1..]);
    OneMoreSeparator(t[a], t[a + 1..][..LeadingSeps(t[a + 1..])]);
    TakenApart(t, a, LeadingSeps(t[a + 1..]));
  }

  lemma FirstWordNotEmpty(t: string)
    requires FirstWord(t).Word? && LeadingSeps(t) == 0
    ensures FirstWord(t).text != []
  {
    SepIndexStops(t);
  }

  // ---------- the request line ----------

  lemma Append5(a: string, b: string, c: string, d: string, e: string)
    ensures a + b + c + d + e == a + (b + (c + (d + e)))
  {
  }

  /** The texts that the parser compares with. */
  lemma VariantIsEqual(p: StartLine)
    requires IsStart(p)
    ensures EqNoCase(p.version, HTTP_VERSION)
    ensures EqNoCase(p.name, GET_NAME) <==> p.method_.Get?
    ensures EqNoCase(p.name, POST_NAME) <==> p.method_.Post?
    ensures NoSeparators(p.name) && LeadingSeps(p.version) == 0
  {
    EqNoCaseExactly(p.version, "HTTP/1.1");
    EqNoCaseExactly(p.name, "GET");
    EqNoCaseExactly(p.name, "POST");
    assert SameLetter(p.version[0], 'H');
  }

  lemma StartIsAccepted(p: StartLine)
    requires IsStart(p)
    ensures var t := RequestLineText(p);
            && Accepts(t) && (IsPost(t) <==> p.method_.Post?)
            && UrlOf(t) == if |p.url| == 1 then p.url + "judge.html" else p.url
  {
    VariantIsEqual(p);
    var target := p.url + (p.space + p.version);
    assert LeadingSeps(target) == 0 by { assert target[0] == p.url[0]; }
    FirstWordAt(p.name, p.gap, target);
    FirstWordAt(p.url, p.space, p.version);
    Append5(p.name, p.gap, p.url, p.space, p.version);
  }

  /** What is accepted, taken apart. */
  lemma AcceptedParts(t: string) returns (p: StartLine)
    requires Accepts(t)
    ensures IsStart(p) && t == RequestLineText(p)
  {
    FirstWordSplits(t);
    var w := FirstWord(t);
    FirstWordSplits(w.rest);
    var v := FirstWord(w.rest);
    var gap, space := GapAfter(t), GapAfter(w.rest);
    FirstWordNotEmpty(w.rest);
    EqNoCaseExactly(w.text, "GET");
    EqNoCaseExactly(w.text, "POST");
    EqNoCaseExactly(v.rest, "HTTP/1.1");
    p := StartLine(if EqNoCase(w.text, GET_NAME) then Get else Post, w.text, gap, v.text, space, v.rest);
    Append5(w.text, gap, v.text, space, v.rest);
  }

  /**
   Main result on the request line: accepted are exactly the method's name and the version, in
   any case, around a target without separators, with any separators between them.
   */
  lemma AcceptsExactly(t: string)
    ensures Accepts(t) <==> exists p :: IsStart(p) && t == RequestLineText(p)
  {
    if Accepts(t) { var p := AcceptedParts(t); }
    if p :| IsStart(p) && t == RequestLineText(p) { StartIsAccepted(p); }
  }

  lemma RequestLineParses(p: StartLine)
    requires IsStart(p)
    ensures RequestLineEffect(NEW_REQUEST, RequestLineText(p)) == Continue(Requested(p))
  {
    StartIsAccepted(p);
  }

  lemma VariantPrintable(s: string, t: string)
    requires Variant(s, t) && Printable(t)
    ensures Printable(s)
  {
    forall i | 0 <= i < |s| ensures !IsBreak(s[i]) && s[i] != NUL {
      assert SameLetter(s[i], t[i]) && t[i] in t;
    }
  }

  lemma SeparatorsPrintable(s: string)
    requires Separators(s)
    ensures Printable(s)
  {
  }

  lemma JoinedPrintable(a: string, b: string)
    requires Printable(a) && Printable(b)
    ensures Printable(a + b)
  {
  }

  lemma RequestLinePrintable(p: StartLine)
    requires WellFormedStart(p)
    ensures Printable(RequestLineText(p))
  {
    VariantPrintable(p.name, if p.method_.Get? then "GET" else "POST");
    VariantPrintable(p.version, "HTTP/1.1");
    SeparatorsPrintable(p.gap);
    SeparatorsPrintable(p.space);
    JoinedPrintable(p.name, p.gap);
    JoinedPrintable(p.name + p.gap, p.url);
    JoinedPrintable(p.name + p.gap + p.url, p.space);
    JoinedPrintable(p.name + p.gap + p.url + p.space, p.version);
  }

  // ---------- headers ----------

  lemma BeginsWithName(name: string, text: string, rest: string)
    requires Variant(name, text)
    ensures Begins(name + rest, text)
  {
    assert (name + rest)[..|text|] == name;
  }

  /** A line with this name, and its value. */
  lemma NamedHeader(name: string, text: string, gap: string, v: string)
    requires Variant(name, text) && Separators(gap) && LeadingSeps(v) == 0
    ensures var t := name + gap + v; StartsNoCase(t, text) && SkipSeps(t[|text|..]) == v
  {
    var t := name + gap + v;
    assert t == name + (gap + v);
    BeginsWithName(name, text, gap + v);
    StartsNoCaseExactly(t, text);
    assert t[|text|..] == gap + v;
    SkipGap(gap, v);
  }

  lemma DecimalPrintable(n: nat)
    ensures Printable(Decimal(n)) && Decimal(n) != [] && IsDigit(Decimal(n)[0])
  {
    var d := Decimal(n);
    forall i | 0 <= i < |d| ensures IsDigit(d[i]) { assert d[i] in d; }
  }

  lemma ConnectionParses(r: Request, h: HeaderLine)
    requires WellFormedHeader(h) && h.ConnectionHeader?
    ensures HeaderEffect(r, HeaderText(h)) == Continue(ApplyOne(r, h))
  {
    NamedHeader(h.name, "Connection:", h.gap, h.value);
    EqNoCaseExactly(h.value, "keep-alive");
  }

  lemma LengthEffect(r: Request, name: string, gap: string, v: string)
    requires Variant(name, "Content-length:") && Separators(gap) && LeadingSeps(v) == 0
    ensures HeaderEffect(r, name + gap + v) == Continue(r.(contentLength := ToInt(Atol(v))))
  {
    NamedHeader(name, "Content-length:", gap, v);
    NotThatHeader(name + gap + v, "Content-length:", "Connection:", 3);
  }

  lemma NumberRead(sign: Sign, n: nat, tail: string)
    requires tail == [] || !IsDigit(tail[0])
    ensures Atol(SignText(sign) + (Decimal(n) + tail)) == Nearest(if sign.Minus? then 0 - n else n)
  {
    var v := SignText(sign) + (Decimal(n) + tail);
    AtolOfNumber("", sign, n, tail);
    assert "" + v == v;
  }

  lemma LengthParses(r: Request, h: HeaderLine)
    requires WellFormedHeader(h) && h.LengthHeader?
    ensures HeaderEffect(r, HeaderText(h)) == Continue(ApplyOne(r, h))
  {
    var v := SignText(h.sign) + (Decimal(h.n) + h.tail);
    NumberBegins(h);
    LengthEffect(r, h.name, h.gap, v);
    NumberRead(h.sign, h.n, h.tail);
    AsIntExactly(Atol(v));
  }

  lemma NumberBegins(h: HeaderLine)
    requires h.LengthHeader?
    ensures LeadingSeps(SignText(h.sign) + (Decimal(h.n) + h.tail)) == 0
  {
    var digits := Decimal(h.n) + h.tail;
    DecimalPrintable(h.n);
    assert digits[0] == Decimal(h.n)[0];
    assert h.sign.Plain? ==> SignText(h.sign) + digits == digits;
  }

  lemma HostParses(r: Request, h: HeaderLine)
    requires WellFormedHeader(h) && h.HostHeader?
    ensures HeaderEffect(r, HeaderText(h)) == Continue(ApplyOne(r, h))
  {
    NamedHeader(h.name, "Host:", h.gap, h.value);
    NotThatHeader(HeaderText(h), "Host:", "Connection:", 0);
    NotThatHeader(HeaderText(h), "Host:", "Content-length:", 0);
  }

  /** A line that begins with none of the names in any case means nothing. */
  lemma OtherParses(r: Request, line: string)
    requires line != [] && !IsKnown(line)
    ensures HeaderEffect(r, line) == Continue(r)
  {
    StartsNoCaseExactly(line, "Connection:");
    StartsNoCaseExactly(line, "Content-length:");
    StartsNoCaseExactly(line, "Host:");
  }

  /** Main result on headers: each means what it says, its name in any case, and any other nothing. */
  lemma HeaderParses(r: Request, h: HeaderLine)
    requires WellFormedHeader(h)
    ensures HeaderEffect(r, HeaderText(h)) == Continue(ApplyOne(r, h))
  {
    match h
    case ConnectionHeader(_, _, _) => ConnectionParses(r, h);
    case LengthHeader(_, _, _, _, _) => LengthParses(r, h);
    case HostHeader(_, _, _) => HostParses(r, h);
    case OtherHeader(line) => OtherParses(r, line);
  }

  lemma HeaderPrintable(h: HeaderLine)
    requires WellFormedHeader(h)
    ensures Printable(HeaderText(h)) && HeaderText(h) != []
  {
    match h
    case ConnectionHeader(name, gap, v) => NamedPrintable(name, "Connection:", gap, v);
    case LengthHeader(_, _, _, _, _) => LengthPrintable(h);
    case HostHeader(name, gap, v) => NamedPrintable(name, "Host:", gap, v);
    case OtherHeader(_) =>
  }

  lemma LengthPrintable(h: HeaderLine)
    requires WellFormedHeader(h) && h.LengthHeader?
    ensures Printable(HeaderText(h)) && HeaderText(h) != []
  {
    DecimalPrintable(h.n);
    JoinedPrintable(Decimal(h.n), h.tail);
    JoinedPrintable(SignText(h.sign), Decimal(h.n) + h.tail);
    NamedPrintable(h.name, "Content-length:", h.gap, SignText(h.sign) + (Decimal(h.n) + h.tail));
  }

  lemma NamedPrintable(name: string, text: string, gap: string, v: string)
    requires Variant(name, text) && text != [] && Printable(text) && Separators(gap) && Printable(v)
    ensures Printable(name + gap + v) && name + gap + v != []
  {
    VariantPrintable(name, text);
    SeparatorsPrintable(gap);
    JoinedPrintable(name, gap);
    JoinedPrintable(name + gap, v);
  }

  lemma HeaderLineParses(r: Request, h: HeaderLine, tail: string)
    requires r.phase.Header? && WellFormedHeader(h)
    ensures Parse(r, HeaderText(h) + CRLF + tail) == Parse(ApplyOne(r, h), tail)
  {
    HeaderParses(r, h);
    HeaderPrintable(h);
    CStrWhole(HeaderText(h));
    ParseContinues(r, HeaderText(h), ApplyOne(r, h), tail);
  }

  lemma PrintHeadersStep(hs: seq<HeaderLine>, rest: string)
    requires hs != []
    ensures PrintHeaders(hs) + rest == HeaderText(hs[0]) + CRLF + (PrintHeaders(hs[1..]) + rest)
  {
    Regroup(HeaderText(hs[0]) + CRLF, PrintHeaders(hs[1..]), rest);
  }

  lemma {:induction false} HeadersParse(r: Request, hs: seq<HeaderLine>, rest: string)
    requires r.phase.Header? && forall i | 0 <= i < |hs| :: WellFormedHeader(hs[i])
    ensures Parse(r, PrintHeaders(hs) + rest) == Parse(Apply(r, hs), rest) && Apply(r, hs).phase.Header?
    decreases |hs|
  {
    if hs == [] {
      assert PrintHeaders(hs) + rest == rest;
    } else {
      PrintHeadersStep(hs, rest);
      HeaderLineParses(r, hs[0], PrintHeaders(hs[1..]) + rest);
      HeadersParse(ApplyOne(r, hs[0]), hs[1..], rest);
    }
  }

  lemma BlankLineParses(r: Request, body: string)
    requires r.phase.Header?
    ensures Parse(r, CRLF + body) ==
            if r.contentLength != 0 then Body(r.(phase := Content), body) else Ready(r, body)
  {
    NextLineComplete([], body);
    assert [] + CRLF + body == CRLF + body;
  }

  /**
   Main result: a printed request is parsed to exactly its method, URL, last length and host
   and keep-alive, with the bytes behind the blank line left over as its body.
   */
  lemma PrintThenParse(p: StartLine, hs: seq<HeaderLine>, body: string)
    requires WellFormedStart(p) && forall i | 0 <= i < |hs| :: WellFormedHeader(hs[i])
    ensures var r := Apply(Requested(p), hs);
            Parse(NEW_REQUEST, Print(p, hs, body)) ==
            if r.contentLength != 0 then Body(r.(phase := Content), body) else Ready(r, body)
  {
    RequestLineParses(p);
    RequestLinePrintable(p);
    CStrWhole(RequestLineText(p));
    ParseContinues(NEW_REQUEST, RequestLineText(p), Requested(p), PrintHeaders(hs) + (CRLF + body));
    HeadersParse(Requested(p), hs, CRLF + body);
    BlankLineParses(Apply(Requested(p), hs), body);
  }

  // ---------- a request on a connection without init before it ----------

  lemma {:induction false} HeadersKeepTarget(r: Request, hs: seq<HeaderLine>)
    ensures var q := Apply(r, hs); q.url == r.url && q.method_ == r.method_ && q.cgi == r.cgi && q.phase == r.phase
    decreases |hs|
  {
    if hs != [] { HeadersKeepTarget(ApplyOne(r, hs[0]), hs[1..]); }
  }

  /** A request line in the header state is a header that nobody knows. */
  lemma RequestLineAsHeader(p: StartLine)
    requires WellFormedStart(p)
    ensures WellFormedHeader(OtherHeader(RequestLineText(p)))
  {
    var line := RequestLineText(p);
    RequestLinePrintable(p);
    assert line[0] == p.name[0] && SameLetter(p.name[0], if p.method_.Get? then 'G' else 'P');
    assert Begins(line, "Connection:") ==> SameLetter(line[..11][0], 'C');
    assert Begins(line, "Content-length:") ==> SameLetter(line[..15][0], 'C');
    assert Begins(line, "Host:") ==> SameLetter(line[..5][0], 'H');
  }

  /**
   The state after a request without content stays the header state when init does not follow.
   Of the next request only the headers count: the first one's method and URL are issued again.
   */
  lemma NextWithoutInit(r: Request, p: StartLine, hs: seq<HeaderLine>, body: string)
    requires r.phase.Header? && WellFormedStart(p) && forall i | 0 <= i < |hs| :: WellFormedHeader(hs[i])
    ensures var q := Apply(r, hs);
            && Parse(r, Print(p, hs, body)) ==
               (if q.contentLength != 0 then Body(q.(phase := Content), body) else Ready(q, body))
            && q.url == r.url && q.method_ == r.method_ && q.cgi == r.cgi
  {
    var all := [OtherHeader(RequestLineText(p))] + hs;
    RequestLineAsHeader(p);
    assert all[1..] == hs;
    HeadersParse(r, all, CRLF + body);
    Regroup(RequestLineText(p) + CRLF, PrintHeaders(hs), CRLF + body);
    BlankLineParses(Apply(r, hs), body);
    HeadersKeepTarget(r, hs);
  }
}
