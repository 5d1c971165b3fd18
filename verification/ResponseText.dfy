/** The text of a response, and the bounded buffer that it is printed into. */
module ResponseText {
  import opened Text
  import opened RequestGrammar
  import opened Wrappers

  /** The results of do_request and of parsing that process_write tells apart. */
  datatype Result = InternalError | BadRequest | Forbidden | FileFound | OtherResult

  const WRITE_BUFFER_SIZE: nat := 1024

  const OK_TITLE: string := "OK"
  const TITLE_403: string := "Forbidden"
  const FORM_403: string := "You do not have permission to get file form this server.\n"
  const TITLE_404: string := "Not Found"
  const FORM_404: string := "The requested file was not found on this server.\n"
  const TITLE_500: string := "Internal Error"
  const FORM_500: string := "There was an unusual problem serving the request file.\n"
  const EMPTY_PAGE: string := "<html><body></body></html>"

  const LENGTH_NAME: string := "Content-Length:"
  const LINGER_NAME: string := "Connection:"

  /** %d */
  function IntText(n: int): string { if n < 0 then "-" + Decimal(-n) else Decimal(n) }

  function StatusLine(status: int, title: string): string { "HTTP/1.1" + " " + IntText(status) + " " + title + CRLF }

  function LengthLine(n: int): string { LENGTH_NAME + IntText(n) + CRLF }

  function LingerLine(linger: bool): string { LINGER_NAME + (if linger then "keep-alive" else "close") + CRLF }

  /** Status line, length, connection, blank line. */
  function HeadText(status: int, title: string, length: int, linger: bool): string {
    StatusLine(status, title) + LengthLine(length) + LingerLine(linger) + CRLF
  }

  // ---------- the bounded buffer ----------

  /** add_response takes a piece only if two bytes of the buffer stay free. */
  predicate Fits(text: string, piece: string) { |text| + |piece| < WRITE_BUFFER_SIZE - 1 }

  function Added(text: string, piece: string): string { if Fits(text, piece) then text + piece else text }

  /** add_headers gives up at the first piece that does not fit. */
  function HeadersAdded(text: string, length: int, linger: bool): string {
    var one := text + LengthLine(length);
    var two := one + LingerLine(linger);
    if !Fits(text, LengthLine(length)) then text
    else if !Fits(one, LingerLine(linger)) then one
    else Added(two, CRLF)
  }

  /** The status line and the headers behind what is there. */
  function HeadAdded(text: string, status: int, title: string, length: int, linger: bool): string {
    HeadersAdded(Added(text, StatusLine(status, title)), length, linger)
  }

  /** The first `k` of the three pieces of add_headers. */
  function Pieces(length: int, linger: bool, k: nat): string {
    if k == 0 then "" else if k == 1 then LengthLine(length)
    else if k == 2 then LengthLine(length) + LingerLine(linger)
    else LengthLine(length) + LingerLine(linger) + CRLF
  }

  /** How many of them leave two bytes of the buffer free, one after the other. */
  function Taken(text: string, length: int, linger: bool): nat {
    if |text| + |Pieces(length, linger, 1)| >= 1023 then 0
    else if |text| + |Pieces(length, linger, 2)| >= 1023 then 1
    else if |text| + |Pieces(length, linger, 3)| >= 1023 then 2
    else 3
  }

  /** add_headers appends its pieces up to the first that does not fit, and no other. */
  lemma HeadersUpToMiss(text: string, length: int, linger: bool)
    ensures HeadersAdded(text, length, linger) == text + Pieces(length, linger, Taken(text, length, linger))
  {
    assert text + "" == text;
    assert text + LengthLine(length) + LingerLine(linger) == text + (LengthLine(length) + LingerLine(linger));
    assert text + LengthLine(length) + LingerLine(linger) + CRLF ==
           text + (LengthLine(length) + LingerLine(linger) + CRLF);
  }

  lemma HeadAddedGrows(text: string, status: int, title: string, length: int, linger: bool)
    ensures text <= HeadAdded(text, status, title, length, linger)
  {
  }

  /** In an empty buffer everything fits. */
  lemma HeadAddedToNothing(status: int, title: string, length: int, linger: bool)
    requires |StatusLine(status, title)| + |LengthLine(length)| + |LingerLine(linger)| + 2 < WRITE_BUFFER_SIZE - 1
    ensures HeadAdded([], status, title, length, linger) == HeadText(status, title, length, linger)
  {
    NothingBefore(StatusLine(status, title));
  }

  // ---------- what was sent, and its length ----------

  function StatusOf(r: Result): int {
    match r
    case InternalError => 500
    case BadRequest => 404
    case Forbidden => 403
    case _ => 200
  }

  function TitleOf(r: Result): string {
    match r
    case InternalError => TITLE_500
    case BadRequest => TITLE_404
    case Forbidden => TITLE_403
    case _ => OK_TITLE
  }

  function FormOf(r: Result): string {
    match r
    case InternalError => FORM_500
    case BadRequest => FORM_404
    case Forbidden => FORM_403
    case _ => EMPTY_PAGE
  }

  lemma HeaderLength(status: int, title: string, length: int, linger: bool)
    ensures |HeadText(status, title, length, linger)| ==
            |StatusLine(status, title)| + |LengthLine(length)| + |LingerLine(linger)| + 2
    ensures |HeadText(status, title, length, linger)| > 0
  {
  }

  lemma NothingBefore(s: string)
    ensures [] + s == s
  {
  }

  lemma IntTextLength(n: int)
    requires -INT_MAX - 1 <= n <= INT_MAX
    ensures |IntText(n)| <= 11
  {
    assert Pow10(10) == 10_000_000_000;
    DecimalLength(if n < 0 then -n else n, 10, Pow10(10));
  }

  /** Every header fits in the write buffer with room for every form. */
  lemma HeaderFits(r: Result, length: int, linger: bool)
    requires -INT_MAX - 1 <= length <= INT_MAX
    ensures |StatusLine(StatusOf(r), TitleOf(r))| + |LengthLine(length)| + |LingerLine(linger)| + 2 + |FormOf(r)| <= 300
  {
    IntTextLength(length);
    IntTextLength(StatusOf(r));
  }

  /** In a fresh buffer the header of a file is complete ... */
  lemma FreshFile(length: int, linger: bool)
    requires -INT_MAX - 1 <= length <= INT_MAX
    ensures var head := HeadAdded([], 200, OK_TITLE, length, linger);
            head == HeadText(200, OK_TITLE, length, linger) && 0 < |head| < WRITE_BUFFER_SIZE - 1
  {
    HeaderFits(FileFound, length, linger);
    HeadAddedToNothing(200, OK_TITLE, length, linger);
    HeaderLength(200, OK_TITLE, length, linger);
  }

  /** ... and so is a form with its header. */
  lemma FreshForm(r: Result, linger: bool)
    ensures var head := HeadAdded([], StatusOf(r), TitleOf(r), |FormOf(r)|, linger);
            head == HeadText(StatusOf(r), TitleOf(r), |FormOf(r)|, linger) && 0 < |head| && Fits(head, FormOf(r))
  {
    HeaderFits(r, |FormOf(r)|, linger);
    HeadAddedToNothing(StatusOf(r), TitleOf(r), |FormOf(r)|, linger);
    HeaderLength(StatusOf(r), TitleOf(r), |FormOf(r)|, linger);
  }

  lemma ToIntRange(v: nat)
    ensures -INT_MAX - 1 <= ToInt(v) <= INT_MAX && (ToInt(v) == v <==> v <= INT_MAX)
  {
  }
}
