/**
 What a client reads from a response: status line, header fields up to the blank line, body
 (RFC 7230, sections 3.1.2 and 3.3.2). Its texts are written out apart from the server's.
 */
module ResponseReader {
  import opened Text
  import opened RequestGrammar
  import opened RequestPrinter
  import opened ResponseText
  import opened Wrappers

  datatype Reply =
    | Reply(version: string, code: int, reason: string, length: Option<int>, keepAlive: bool, body: string)
    | NoReply

  /** Header lines up to the blank line, `so` far. */
  function ReadFields(so: Reply, s: string): Reply
    requires so.Reply?
    decreases |s|
  {
    match NextLine(s)
    case Complete(text, rest) =>
      if text == [] then so.(body := rest)
      else if StartsNoCase(text, "Content-Length:") then
        ReadFields(so.(length := Some(Atol(text[|"Content-Length:"|..]))), rest)
      else if StartsNoCase(text, "Connection:") then
        ReadFields(so.(keepAlive := EqNoCase(text[|"Connection:"|..], "keep-alive")), rest)
      else ReadFields(so, rest)
    case _ => NoReply
  }

  /** Version, number and reason, with blanks between them. */
  function ReadStatus(line: string): Reply {
    match FirstWord(line)
    case Word(version, rest) =>
      (match FirstWord(rest)
       case Word(number, reason) => Reply(version, Atol(number), reason, None, false, "")
       case NoWord => NoReply)
    case NoWord => NoReply
  }

  function ReadReply(s: string): Reply {
    match NextLine(s)
    case Complete(text, rest) => if ReadStatus(text).Reply? then ReadFields(ReadStatus(text), rest) else NoReply
    case _ => NoReply
  }

  // ---------- numbers ----------

  lemma IntTextIsText(n: int)
    ensures NoBreak(IntText(n)) && IntText(n) != [] && NoSeparators(IntText(n))
  {
    DecimalIsText(if n < 0 then -n else n);
  }

  lemma DecimalIsText(n: nat)
    ensures NoBreak(Decimal(n)) && Decimal(n) != [] && NoSeparators(Decimal(n))
  {
    var d := Decimal(n);
    forall i | 0 <= i < |d| ensures IsDigit(d[i]) { assert d[i] in d; }
  }

  lemma AtolOfIntText(n: int)
    requires -INT_MAX - 1 <= n <= INT_MAX
    ensures Atol(IntText(n)) == n
  {
    var m: nat := if n < 0 then -n else n;
    assert Decimal(m)[0] in Decimal(m);
    assert Decimal(m) + [] == Decimal(m);
    if n < 0 {
      assert IntText(n)[1..] == Decimal(m);
      DigitsOfDecimal(Decimal(m), []);
      ValueOfDecimal(m);
    } else {
      AtolOfDecimal(m, []);
    }
  }

  // ---------- the lines ----------

  lemma LengthRead(so: Reply, value: string, rest: string)
    requires so.Reply? && NoBreak(value)
    ensures ReadFields(so, "Content-Length:" + value + CRLF + rest) == ReadFields(so.(length := Some(Atol(value))), rest)
  {
    var name: string := "Content-Length:";
    var text := name + value;
    NextLineComplete(text, rest);
    assert text[..|name|] == name && text[|name|..] == value;
  }

  lemma LingerRead(so: Reply, value: string, rest: string)
    requires so.Reply? && NoBreak(value)
    ensures ReadFields(so, "Connection:" + value + CRLF + rest) ==
            ReadFields(so.(keepAlive := EqNoCase(value, "keep-alive")), rest)
  {
    var name: string := "Connection:";
    var text := name + value;
    NextLineComplete(text, rest);
    assert text[..|name|] == name && text[|name|..] == value;
    NotThatHeader(text, name, "Content-Length:", 3);
  }

  lemma BlankLineRead(so: Reply, body: string)
    requires so.Reply?
    ensures ReadFields(so, CRLF + body) == so.(body := body)
  {
    NextLineComplete([], body);
    assert [] + CRLF + body == CRLF + body;
  }

  /** A reason as the server prints it. */
  predicate Reason(title: string) { NoBreak(title) && LeadingSeps(title) == 0 }

  lemma StatusReadsBack(version: string, status: int, title: string)
    requires Reason(title) && 0 <= status <= INT_MAX && NoSeparators(version)
    ensures ReadStatus(version + " " + IntText(status) + " " + title) == Reply(version, status, title, None, false, "")
  {
    var tail := IntText(status) + (" " + title);
    IntTextIsText(status);
    AtolOfIntText(status);
    assert LeadingSeps(tail) == 0 by { assert tail[0] == IntText(status)[0]; }
    FirstWordAt(version, " ", tail);
    FirstWordAt(IntText(status), " ", title);
    Append5(version, " ", IntText(status), " ", title);
  }

  lemma StatusIsLine(version: string, status: int, title: string)
    requires NoBreak(version) && NoBreak(title)
    ensures NoBreak(version + " " + IntText(status) + " " + title)
  {
    IntTextIsText(status);
  }

  lemma FirstLineRead(line: string, rest: string)
    requires NoBreak(line) && ReadStatus(line).Reply?
    ensures ReadReply(line + CRLF + rest) == ReadFields(ReadStatus(line), rest)
  {
    NextLineComplete(line, rest);
  }

  lemma StatusRead(status: int, title: string, rest: string)
    requires Reason(title) && 0 <= status <= INT_MAX
    ensures ReadReply(StatusLine(status, title) + rest) ==
            ReadFields(Reply("HTTP/1.1", status, title, None, false, ""), rest)
  {
    var version: string := "HTTP/1.1";
    var line := version + " " + IntText(status) + " " + title;
    assert StatusLine(status, title) == line + CRLF;
    assert NoBreak(version) && NoSeparators(version);
    StatusReadsBack(version, status, title);
    StatusIsLine(version, status, title);
    FirstLineRead(line, rest);
  }

  lemma HeaderParts(status: int, title: string, length: int, linger: bool, body: string)
    ensures HeadText(status, title, length, linger) + body ==
            StatusLine(status, title) + (LengthLine(length) + (LingerLine(linger) + (CRLF + body)))
  {
    Append5(StatusLine(status, title), LengthLine(length), LingerLine(linger), CRLF, body);
  }

  lemma FieldsRead(so: Reply, length: int, linger: bool, body: string)
    requires so.Reply? && -INT_MAX - 1 <= length <= INT_MAX
    ensures ReadFields(so, LengthLine(length) + (LingerLine(linger) + (CRLF + body))) ==
            so.(length := Some(length), keepAlive := linger, body := body)
  {
    var t := LingerLine(linger) + (CRLF + body);
    assert ReadFields(so, LengthLine(length) + t) == ReadFields(so.(length := Some(length)), t) by {
      IntTextIsText(length);
      AtolOfIntText(length);
      LengthRead(so, IntText(length), t);
    }
    LingerFieldRead(so.(length := Some(length)), linger, body);
  }

  lemma LingerFieldRead(so: Reply, linger: bool, body: string)
    requires so.Reply?
    ensures ReadFields(so, LingerLine(linger) + (CRLF + body)) == so.(keepAlive := linger, body := body)
  {
    LingerRead(so, if linger then "keep-alive" else "close", CRLF + body);
    BlankLineRead(so.(keepAlive := linger), body);
  }

  /** Main result on the text: a client reads back status, announced length, connection option and body. */
  lemma HeaderReadsBack(status: int, title: string, length: int, linger: bool, body: string)
    requires Reason(title) && 0 <= status <= INT_MAX && -INT_MAX - 1 <= length <= INT_MAX
    ensures ReadReply(HeadText(status, title, length, linger) + body) ==
            Reply("HTTP/1.1", status, title, Some(length), linger, body)
  {
    var fields := LengthLine(length) + (LingerLine(linger) + (CRLF + body));
    assert HeadText(status, title, length, linger) + body == StatusLine(status, title) + fields by {
      HeaderParts(status, title, length, linger, body);
    }
    StatusRead(status, title, fields);
    FieldsRead(Reply("HTTP/1.1", status, title, None, false, ""), length, linger, body);
  }

  // ---------- what each result means to the client ----------

  /** What a client is to read for each result that has a response of its own. */
  function Meant(r: Result, linger: bool): Reply {
    match r
    case InternalError => Reply("HTTP/1.1", 500, "Internal Error", Some(PageMeant(r).1), linger, PageMeant(r).0)
    case BadRequest => Reply("HTTP/1.1", 404, "Not Found", Some(PageMeant(r).1), linger, PageMeant(r).0)
    case Forbidden => Reply("HTTP/1.1", 403, "Forbidden", Some(PageMeant(r).1), linger, PageMeant(r).0)
    case _ => NoReply
  }

  /** The page of each result, with its length. */
  function PageMeant(r: Result): (string, int) {
    match r
    case InternalError => ("There was an unusual problem serving the request file.\n", 55)
    case BadRequest => ("The requested file was not found on this server.\n", 49)
    case Forbidden => ("You do not have permission to get file form this server.\n", 57)
    case _ => ("", 0)
  }

  lemma PagesAsMeant(r: Result)
    requires !r.FileFound? && !r.OtherResult?
    ensures FormOf(r) == PageMeant(r).0 && |FormOf(r)| == PageMeant(r).1
  {
  }

  lemma TitlesAsMeant(r: Result)
    ensures NoBreak(TitleOf(r)) && LeadingSeps(TitleOf(r)) == 0 && 0 <= StatusOf(r) <= INT_MAX
  {
  }

  /** Main result on errors: each is read as its own number and reason, with its own page. */
  lemma ErrorsAsMeant(r: Result, linger: bool, message: string)
    requires Meant(r, linger).Reply?
    requires message == HeadText(StatusOf(r), TitleOf(r), |FormOf(r)|, linger) + FormOf(r)
    ensures ReadReply(message) == Meant(r, linger)
  {
    PagesAsMeant(r);
    TitlesAsMeant(r);
    ReadsBackTo(StatusOf(r), TitleOf(r), FormOf(r), linger, Meant(r, linger));
  }

  lemma ReadsBackTo(status: int, title: string, form: string, linger: bool, m: Reply)
    requires Reason(title) && 0 <= status <= INT_MAX && |form| <= INT_MAX
    requires m == Reply("HTTP/1.1", status, title, Some(|form|), linger, form)
    ensures ReadReply(HeadText(status, title, |form|, linger) + form) == m
  {
    HeaderReadsBack(status, title, |form|, linger, form);
  }

  /** What process_write announces for a file is its size if and only if the size fits in an int. */
  lemma AnnouncesFileSize(size: nat, linger: bool, file: string)
    requires |file| == size
    ensures var reply := ReadReply(HeadText(200, OK_TITLE, ToInt(size), linger) + file);
            && reply == Reply("HTTP/1.1", 200, "OK", Some(ToInt(size)), linger, file)
            && (ToInt(size) == |reply.body| <==> size <= INT_MAX)
  {
    ToIntRange(size);
    HeaderReadsBack(200, OK_TITLE, ToInt(size), linger, file);
  }
}
