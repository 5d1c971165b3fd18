/** The URL parser and the split it uses. */
module Url {
  import opened Text

  // ---------- split ----------

  predicate Free(s: string, d: char) { d !in s }

  /** The first `d`, or the length. */
  function IndexOf(s: string, d: char): (k: nat)
    ensures k <= |s|
  {
    if s == [] || s[0] == d then 0 else 1 + IndexOf(s[1..], d)
  }

  lemma {:induction false} IndexStops(s: string, d: char)
    ensures IndexOf(s, d) < |s| ==> s[IndexOf(s, d)] == d
    ensures forall i | 0 <= i < IndexOf(s, d) :: s[i] != d
  {
    if s != [] && s[0] != d {
      IndexStops(s[1..], d);
      forall i | 0 <= i < IndexOf(s, d) ensures s[i] != d {
        assert i > 0 ==> s[i] == s[1..][i - 1];
      }
    }
  }

  lemma {:induction false} IndexBehind(s: string, d: char, n: nat)
    requires n <= |s| && forall i | 0 <= i < n :: s[i] != d
    ensures IndexOf(s, d) >= n
  {
    IndexStops(s, d);
  }

  /** The pieces between delimiters; an empty last piece is dropped, an empty other one is kept. */
  function Split(s: string, d: char): seq<string>
    decreases |s|
  {
    if s == [] then []
    else
      var k := IndexOf(s, d);
      if k == |s| then [s] else [s[..k]] + Split(s[k + 1..], d)
  }

  function Join(pieces: seq<string>, d: char): string
    decreases |pieces|
  {
    if pieces == [] then []
    else if |pieces| == 1 then pieces[0]
    else pieces[0] + ([d] + Join(pieces[1..], d))
  }

  lemma {:induction false} SplitFirst(t: string, d: char)
    requires t != []
    ensures var k := IndexOf(t, d); Split(t, d) == if k == |t| then [t] else [t[..k]] + Split(t[k + 1..], d)
  {
  }

  lemma {:induction false} PieceAt(s: string, pos: nat, d: char)
    requires pos < |s|
    ensures var end := pos + IndexOf(s[pos..], d);
            Split(s[pos..], d) == if end == |s| then [s[pos..end]] else [s[pos..end]] + Split(s[end + 1..], d)
  {
    var t, k := s[pos..], IndexOf(s[pos..], d);
    SplitFirst(t, d);
    SliceOfTail(s, pos, k);
    if k == |t| { assert t[..k] == t; }
  }

  lemma SliceOfTail(s: string, pos: nat, k: nat)
    requires pos + k <= |s|
    ensures s[pos..][..k] == s[pos..pos + k]
    ensures pos + k < |s| ==> s[pos..][k + 1..] == s[pos + k + 1..]
  {
  }

  lemma Regroup(before: seq<string>, piece: string, rest: seq<string>)
    ensures before + ([piece] + rest) == before + [piece] + rest
  {
  }

  /** Where the piece after the one that ends at `end` starts. */
  function After(s: string, end: nat): (pos: nat)
    requires end <= |s|
    ensures end <= pos <= |s|
  {
    if end == |s| then end else end + 1
  }

  lemma {:induction false} NextPiece(s: string, pos: nat, end: nat, d: char)
    requires pos < |s| && end == pos + IndexOf(s[pos..], d)
    ensures Split(s[pos..], d) == [s[pos..end]] + Split(s[After(s, end)..], d)
  {
    PieceAt(s, pos, d);
    if end == |s| {
      assert s[After(s, end)..] == [];
      assert [s[pos..end]] + [] == [s[pos..end]];
    }
  }

  /** The pieces so far, and those of what is left. */
  predicate Got(elems: seq<string>, s: string, pos: nat, d: char)
    requires pos <= |s|
  {
    elems + Split(s[pos..], d) == Split(s, d)
  }

  lemma {:induction false} NextGot(elems: seq<string>, s: string, pos: nat, end: nat, d: char)
    requires pos < |s| && Got(elems, s, pos, d) && end == pos + IndexOf(s[pos..], d)
    ensures Got(elems + [s[pos..end]], s, After(s, end), d)
  {
    NextPiece(s, pos, end, d);
    OneMore(elems, Split(s[pos..], d), s[pos..end], Split(s[After(s, end)..], d), Split(s, d));
  }

  lemma OneMore(elems: seq<string>, left: seq<string>, piece: string, rest: seq<string>, all: seq<string>)
    requires elems + left == all && left == [piece] + rest
    ensures elems + [piece] + rest == all
  {
    Regroup(elems, piece, rest);
  }

  /** split: getline until the stream is at its end. */
  method SplitAll(s: string, d: char) returns (elems: seq<string>)
    ensures elems == Split(s, d)
  {
    elems := [];
    var pos := 0;
    assert s[0..] == s;
    while pos < |s|
      invariant pos <= |s| && Got(elems, s, pos, d)
    {
      var end := GetLine(s, pos, d);
      NextGot(elems, s, pos, end, d);
      elems := elems + [s[pos..end]];
      pos := After(s, end);
    }
  }

  /** getline: where the piece that starts at `pos` ends. */
  method GetLine(s: string, pos: nat, d: char) returns (end: nat)
    requires pos <= |s|
    ensures end == pos + IndexOf(s[pos..], d)
  {
    end := pos;
    while end < |s| && s[end] != d
      invariant pos <= end <= |s| && pos + IndexOf(s[pos..], d) == end + IndexOf(s[end..], d)
    {
      assert s[end..][1..] == s[end + 1..];
      end := end + 1;
    }
  }

  function WithoutLast(s: string, d: char): string {
    if s != [] && s[|s| - 1] == d then s[..|s| - 1] else s
  }

  lemma {:induction false} SplitNonempty(s: string, d: char)
    requires s != []
    ensures Split(s, d) != []
  {
  }

  lemma {:induction false} WithoutLastFrom(s: string, d: char, k: nat)
    requires k < |s| && s[k] == d
    ensures WithoutLast(s, d) == if k + 1 == |s| then s[..k] else s[..k] + ([d] + WithoutLast(s[k + 1..], d))
  {
  }

  /** Main result: joining the pieces gives the text back, up to one final delimiter. */
  lemma {:induction false} JoinOfSplit(s: string, d: char)
    ensures Join(Split(s, d), d) == WithoutLast(s, d)
    decreases |s|
  {
    if s != [] {
      var k := IndexOf(s, d);
      IndexStops(s, d);
      if k < |s| {
        var rest := s[k + 1..];
        assert Split(s, d)[1..] == Split(rest, d);
        JoinOfSplit(rest, d);
        if rest != [] { SplitNonempty(rest, d); }
        WithoutLastFrom(s, d, k);
      }
    }
  }

  lemma {:induction false} IndexOfIs(s: string, d: char, k: nat)
    requires k <= |s| && (forall i | 0 <= i < k :: s[i] != d) && (k < |s| ==> s[k] == d)
    ensures IndexOf(s, d) == k
  {
    if k > 0 { IndexOfIs(s[1..], d, k - 1); }
  }

  lemma IndexOfAppend(a: string, d: char, b: string)
    requires Free(a, d)
    ensures IndexOf(a + [d] + b, d) == |a| && IndexOf(a, d) == |a|
  {
    IndexOfIs(a + [d] + b, d, |a|);
    IndexOfIs(a, d, |a|);
  }

  lemma FirstApart(pieces: seq<string>)
    requires |pieces| > 1
    ensures pieces == [pieces[0]] + pieces[1..]
    ensures pieces[..|pieces| - 1] == [pieces[0]] + pieces[1..][..|pieces| - 2]
  {
  }

  /** Main result: splitting joined pieces gives them back if and only if the last is not empty. */
  lemma {:induction false} SplitOfJoin(pieces: seq<string>, d: char)
    requires forall i | 0 <= i < |pieces| :: Free(pieces[i], d)
    ensures var last := |pieces| - 1;
            Split(Join(pieces, d), d) == if pieces != [] && pieces[last] == [] then pieces[..last] else pieces
    ensures Split(Join(pieces, d), d) == pieces <==> (pieces == [] || pieces[|pieces| - 1] != [])
    decreases |pieces|
  {
    if |pieces| == 1 {
      IndexOfAppend(pieces[0], d, []);
      assert pieces == [pieces[0]];
    } else if |pieces| > 1 {
      var rest := pieces[1..];
      var s := Join(pieces, d);
      assert s == pieces[0] + [d] + Join(rest, d);
      IndexOfAppend(pieces[0], d, Join(rest, d));
      assert s[..|pieces[0]|] == pieces[0] && s[|pieces[0]| + 1..] == Join(rest, d);
      SplitOfJoin(rest, d);
      FirstApart(pieces);
    }
  }

  // ---------- parameters ----------

  datatype Param = Param(key: string, value: string)

  /** One piece of a query; a piece without exactly one or two parts leaves the last parameter as it was. */
  function NextParam(last: Param, line: string): Param {
    var parts := Split(line, '=');
    if |parts| == 2 then Param(parts[0], parts[1])
    else if |parts| == 1 then Param(parts[0], "")
    else last
  }

  function ReadParams(last: Param, lines: seq<string>, m: map<string, string>): map<string, string>
    decreases |lines|
  {
    if lines == [] then m
    else
      var p := NextParam(last, lines[0]);
      ReadParams(p, lines[1..], m[p.key := p.value])
  }

  /** What doParse makes of a query: one without `&` is ignored. */
  function QueryParams(query: string): map<string, string> {
    if '&' !in query then map[] else ReadParams(Param("", ""), Split(query, '&'), map[])
  }

  /** What a piece of a query can be. */
  datatype Piece =
    | Pair(key: string, value: string)                     // key=value, either may be empty
    | Alone(key: string)                                   // key, without =
    | Long(first: string, second: string, more: string)    // first=second=more
    | Nothing

  predicate WellFormedPiece(p: Piece) {
    match p
    case Pair(key, value) => Free(key, '=') && Free(value, '=') && Free(key, '&') && Free(value, '&')
    case Alone(key) => key != "" && Free(key, '=') && Free(key, '&')
    case Long(first, second, more) =>
      Free(first, '=') && Free(second, '=') && more != "" && Free(first, '&') && Free(second, '&') && Free(more, '&')
    case Nothing => true
  }

  function PieceText(p: Piece): string {
    match p
    case Pair(key, value) => key + ['='] + value
    case Alone(key) => key
    case Long(first, second, more) => first + ['='] + (second + ['='] + more)
    case Nothing => ""
  }

  /** The parameter that is assigned at a piece: a pair's, a lone key's with no value, or the last one again. */
  function AssignedAt(last: Param, p: Piece): Param {
    match p
    case Pair(key, value) => Param(key, value)
    case Alone(key) => Param(key, "")
    case Long(_, _, _) => last
    case Nothing => last
  }

  /** Later assignments win. */
  function Assigned(last: Param, ps: seq<Piece>, m: map<string, string>): map<string, string>
    decreases |ps|
  {
    if ps == [] then m
    else
      var p := AssignedAt(last, ps[0]);
      Assigned(p, ps[1..], m[p.key := p.value])
  }

  function PieceTexts(ps: seq<Piece>): (ts: seq<string>)
    ensures |ts| == |ps| && forall i | 0 <= i < |ps| :: ts[i] == PieceText(ps[i])
  {
    seq(|ps|, i requires 0 <= i < |ps| => PieceText(ps[i]))
  }

  function PrintQuery(ps: seq<Piece>): string { Join(PieceTexts(ps), '&') }

  lemma {:induction false} SplitOnce(a: string, b: string)
    requires Free(a, '=')
    ensures Split(a + ['='] + b, '=') == [a] + Split(b, '=')
  {
    var t := a + ['='] + b;
    IndexOfAppend(a, '=', b);
    assert t[..|a|] == a && t[|a| + 1..] == b;
  }

  lemma {:induction false} SplitAlone(a: string)
    requires Free(a, '=') && a != ""
    ensures Split(a, '=') == [a]
  {
    IndexOfAppend(a, '=', []);
  }

  /** Main result on a piece: exactly a pair and a lone key assign what they say. */
  lemma {:induction false} PieceReadsBack(last: Param, p: Piece)
    requires WellFormedPiece(p)
    ensures NextParam(last, PieceText(p)) == AssignedAt(last, p)
  {
    match p
    case Pair(key, value) =>
      SplitOnce(key, value);
      if value != "" { SplitAlone(value); }
    case Alone(key) => SplitAlone(key);
    case Long(first, second, more) =>
      SplitOnce(first, second + ['='] + more);
      SplitOnce(second, more);
      SplitNonempty(more, '=');
    case Nothing =>
  }

  lemma {:induction false} PiecesReadBack(last: Param, ps: seq<Piece>, m: map<string, string>)
    requires forall i | 0 <= i < |ps| :: WellFormedPiece(ps[i])
    ensures ReadParams(last, PieceTexts(ps), m) == Assigned(last, ps, m)
    decreases |ps|
  {
    if ps != [] {
      var p := AssignedAt(last, ps[0]);
      PieceReadsBack(last, ps[0]);
      assert PieceTexts(ps)[1..] == PieceTexts(ps[1..]);
      PiecesReadBack(p, ps[1..], m[p.key := p.value]);
    }
  }

  /** A last piece that is empty is not seen. */
  function Seen(ps: seq<Piece>): seq<Piece> {
    if ps != [] && ps[|ps| - 1].Nothing? then ps[..|ps| - 1] else ps
  }

  lemma {:induction false} QuerySplits(ps: seq<Piece>)
    requires forall i | 0 <= i < |ps| :: WellFormedPiece(ps[i])
    ensures Split(PrintQuery(ps), '&') == PieceTexts(Seen(ps))
    ensures '&' in PrintQuery(ps) <==> |ps| > 1
  {
    var ts := PieceTexts(ps);
    forall i | 0 <= i < |ts| ensures Free(ts[i], '&') && (ts[i] == [] <==> ps[i].Nothing?) {
      assert ts[i] == PieceText(ps[i]) && WellFormedPiece(ps[i]);
    }
    SplitOfJoin(ts, '&');
    if ps != [] { assert ts[..|ps| - 1] == PieceTexts(ps[..|ps| - 1]); }
    if |ps| > 1 { assert Join(ts, '&')[|ts[0]|] == '&'; }
  }

  /**
   Main result: a printed query, whatever pieces it mixes, is read as they say, the last value
   winning, unless it is a single piece, which is ignored.
   */
  lemma QueryReadsBack(ps: seq<Piece>)
    requires forall i | 0 <= i < |ps| :: WellFormedPiece(ps[i])
    ensures QueryParams(PrintQuery(ps)) == Assigned(Param("", ""), Seen(ps), map[]) <==> |ps| != 1 || ps[0].Nothing?
  {
    QuerySplits(ps);
    PiecesReadBack(Param("", ""), Seen(ps), map[]);
    if |ps| == 1 && !ps[0].Nothing? {
      var p := AssignedAt(Param("", ""), ps[0]);
      assert Assigned(Param("", ""), ps, map[]) == map[p.key := p.value] by { assert ps[1..] == []; }
      assert p.key in Assigned(Param("", ""), ps, map[]);
    }
  }

  // ---------- doParse ----------

  const HTTP: string := "http://"
  const HTTPS: string := "https://"

  predicate OriginForm(url: string) { url != [] && url[0] == '/' }

  /** Where the scheme ends, 0 without one. */
  function SchemeEnd(c: string): (n: nat)
    ensures n <= |c| && n in {0, 7, 8} && (n > 0 ==> SchemeBefore(c, n))
  {
    if Begins(c, "http://") then 7 else if Begins(c, "https://") then 8 else 0
  }

  /** The first slash behind the scheme, or the length. */
  function TargetAt(c: string): (k: nat)
    ensures k <= |c|
  {
    SchemeEnd(c) + IndexOf(c[SchemeEnd(c)..], '/')
  }

  /** The first `n` characters are a scheme. */
  predicate SchemeBefore(s: string, n: int) {
    (n == 7 && Begins(s, "http://")) || (n == 8 && Begins(s, "https://"))
  }

  /** The letters of a scheme, one by one. */
  lemma SchemeLetters(s: string, n: int)
    requires SchemeBefore(s, n)
    ensures n <= |s| && s[n - 2] == '/' && s[n - 3] == ':'
    ensures forall i | 0 <= i < n :: s[i] != '?' && (s[i] == '/' ==> i >= n - 2) && (s[i] == ':' ==> i == n - 3)
  {
    if n == 7 { Letters(s, "http://"); } else { Letters(s, "https://"); }
  }

  lemma Letters(s: string, p: string)
    requires Begins(s, p)
    ensures forall i | 0 <= i < |p| :: SameLetter(s[i], p[i])
  {
    forall i | 0 <= i < |p| ensures SameLetter(s[i], p[i]) { assert s[..|p|][i] == s[i]; }
  }

  lemma BeginsStays(s: string, t: string, p: string, m: nat)
    requires Begins(s, p) && |p| <= m <= |t| && forall i | 0 <= i < |p| :: t[i] == s[i]
    ensures Begins(t[..m], p)
  {
    assert t[..m][..|p|] == s[..|p|];
  }

  lemma {:induction false} SlashFound(s: string)
    ensures IndexOf(s, '/') == |s| <==> Free(s, '/')
    ensures IndexOf(s, '/') < |s| ==> s[IndexOf(s, '/')] == '/'
  {
    IndexStops(s, '/');
  }

  /** With the scheme in front, the first colon and the first slash are its own. */
  lemma {:induction false} SchemeMarks(s: string, n: int)
    requires SchemeBefore(s, n)
    ensures IndexOf(s, '/') == n - 2 && IndexOf(s, ':') == n - 3 && s[n - 2] == '/'
  {
    SchemeLetters(s, n);
    IndexOfIs(s, '/', n - 2);
    IndexOfIs(s, ':', n - 3);
  }

  lemma {:induction false} NoNumberAt(s: string)
    requires s != "" && s[0] == '/'
    ensures Atol(CStr(s)) == 0
  {
    assert CStr(s) != "" && CStr(s)[0] == '/';
    assert Digits(CStr(s)) == "";
  }

  /** Host and port of a full path that begins with a scheme. */
  lemma {:induction false} SchemeAsHost(s: string, n: int)
    requires SchemeBefore(s, n)
    ensures IndexOf(s, '/') == n - 2 && IndexOf(s, ':') == n - 3 && Atol(CStr(s[n - 2..])) == 0
  {
    SchemeMarks(s, n);
    assert s[n - 2..][0] == s[n - 2];
    NoNumberAt(s[n - 2..]);
  }

  /** A question mark behind the scheme leaves it in front of the full path. */
  lemma {:induction false} SchemeStays(input: string, n: int)
    requires SchemeBefore(CStr(input), n) && '?' in input
    ensures var k := IndexOf(input, '?'); n <= k < |input| && SchemeBefore(input[..k + 1], n)
  {
    var c, k := CStr(input), IndexOf(input, '?');
    IndexStops(input, '?');
    CStrEnds(input);
    SchemeLetters(c, n);
    assert k < |input|;
    IndexBehind(input, '?', n);
    if n == 7 { BeginsStays(c, input, "http://", k + 1); } else { BeginsStays(c, input, "https://", k + 1); }
  }

  class ParsedUrl {
    var url: string
    var path: string
    var protocol: string
    var fullpath: string
    var query: string
    var port: int
    var host: string
    var parameters: map<string, string>

    constructor ()
      ensures url == path == protocol == fullpath == query == host == "" && port == -1 && parameters == map[]
    {
      url, path, protocol, fullpath, query, host := "", "", "", "", "", "";
      port := -1;
      parameters := map[];
    }

    /** The loop over the pieces of the query; key and value live on from one turn to the next. */
    method ParseParams()
      modifies this`parameters
      ensures parameters == ReadParams(Param("", ""), Split(query, '&'), old(parameters))
    {
      var key, value := "", "";
      var lines := SplitAll(query, '&');
      var i := 0;
      assert lines[0..] == lines;
      while i < |lines|
        invariant i <= |lines|
        invariant ReadParams(Param(key, value), lines[i..], parameters) ==
                  ReadParams(Param("", ""), lines, old(parameters))
      {
        var parts := SplitAll(lines[i], '=');
        if |parts| == 2 {
          key, value := parts[0], parts[1];
        } else if |parts| == 1 {
          key, value := parts[0], "";
        }
        assert lines[i..][1..] == lines[i + 1..];
        parameters := parameters[key := value];
        i := i + 1;
      }
    }

    /** The scheme; `p` is where the target starts in the C string `c`, -1 for null. */
    method ParseScheme(c: string) returns (p: int)
      modifies this`protocol
      ensures SchemeEnd(c) == 0 ==> p == 0 && protocol == old(protocol)
      ensures SchemeEnd(c) > 0 ==>
                && protocol == (if Begins(c, "http://") then "http://" else "https://")
                && p == if Free(c[SchemeEnd(c)..], '/') then -1 else TargetAt(c)
    {
      p := 0;
      StartsNoCaseExactly(c, "http://");
      StartsNoCaseExactly(c, "https://");
      if StartsNoCase(c, HTTP) {
        protocol := HTTP;
        var k := IndexOf(c[|HTTP|..], '/');
        SlashFound(c[|HTTP|..]);
        p := if |HTTP| + k == |c| then -1 else |HTTP| + k;
      } else if StartsNoCase(c, HTTPS) {
        protocol := HTTPS;
        var k := IndexOf(c[|HTTPS|..], '/');
        SlashFound(c[|HTTPS|..]);
        p := if |HTTPS| + k == |c| then -1 else |HTTPS| + k;
      }
    }

    /** Path, host and port out of the full path. */
    method ParseHost()
      modifies this`path, this`host, this`port
      ensures OriginForm(fullpath) ==> path == fullpath
      ensures OriginForm(fullpath) ==>
                var k := IndexOf(fullpath, ':');
                if k == |fullpath| then host == "" && port == old(port)
                else host == fullpath[..k] && port == ToInt(Atol(CStr(fullpath[k + 1..])))
      ensures forall n | SchemeBefore(fullpath, n) :: path == fullpath[n - 2..] && host == fullpath[..n - 3] && port == 0
    {
      forall n | SchemeBefore(fullpath, n)
        ensures IndexOf(fullpath, '/') == n - 2 && IndexOf(fullpath, ':') == n - 3 && Atol(CStr(fullpath[n - 2..])) == 0
      {
        SchemeAsHost(fullpath, n);
      }
      var pos := IndexOf(fullpath, '/');
      if pos < |fullpath| {
        path := fullpath[pos..];
        host := fullpath[..pos];
      }
      pos := IndexOf(fullpath, ':');
      if pos < |fullpath| {
        port := ToInt(Atol(CStr(fullpath[pos + 1..])));
        host := fullpath[..pos];
      }
    }

    /** The full path, which keeps the `?`, and the query; `target` is what is left of the C string. */
    method CutQuery(input: string, target: string)
      requires query == ""
      modifies this`fullpath, this`query
      ensures if '?' in input then
                var k := IndexOf(input, '?'); k < |input| && fullpath == input[..k + 1] && fullpath + query == input
              else fullpath == target && query == ""
      ensures target == CStr(input) ==> (fullpath + query == input <==> '?' in input || NUL !in input)
      ensures target == CStr(input) && OriginForm(input) ==> OriginForm(fullpath)
    {
      CStrEnds(input);
      IndexStops(input, '?');
      fullpath := target;
      var pos := IndexOf(input, '?');
      if pos < |input| {
        fullpath := input[..pos + 1];
        query := input[pos + 1..];
        assert input[pos] in input && fullpath + query == input;
      } else {
        assert input[..pos] == input;
        if CStr(input) == input { assert forall c | c in CStr(input) :: c != NUL; }
      }
    }

    /** What follows once the target is found. */
    method ParseRest(input: string, target: string)
      requires parameters == map[] && query == "" && host == "" && target != "" && target[0] == '/'
      modifies this
      ensures url == input && protocol == old(protocol) && parameters == QueryParams(query)
      ensures if '?' in input then
                var k := IndexOf(input, '?'); k < |input| && fullpath == input[..k + 1] && fullpath + query == input
              else fullpath == target && query == ""
      ensures target == CStr(input) ==> (fullpath + query == input <==> '?' in input || NUL !in input)
      ensures target == CStr(input) ==> OriginForm(fullpath)
      ensures OriginForm(fullpath) ==>
                var k := IndexOf(fullpath, ':');
                && path == fullpath
                && if k == |fullpath| then host == "" && port == old(port)
                   else host == fullpath[..k] && port == ToInt(Atol(CStr(fullpath[k + 1..])))
      ensures forall n | SchemeBefore(fullpath, n) :: path == fullpath[n - 2..] && host == fullpath[..n - 3] && port == 0
    {
      url := input;
      CutQuery(input, target);
      if '&' in query {
        ParseParams();
      }
      ParseHost();
    }

    /**
     doParse on a new record; without result it has ended the process. For a target in origin
     form the full path and the query are the whole of it, unless a NUL hides its end. Behind a
     scheme the domain is lost without a query, and with one the host is the scheme's name.
     */
    method DoParse(input: string) returns (ok: bool)
      requires parameters == map[] && query == "" && host == ""   // as constructed
      modifies this
      ensures ok <==> OriginForm(input) || (SchemeEnd(CStr(input)) > 0 && TargetAt(CStr(input)) < |CStr(input)|)
      ensures ok ==> url == input && parameters == QueryParams(query) && ('?' !in input ==> query == "")
      ensures ok && '?' in input ==> |fullpath| == IndexOf(input, '?') + 1 && fullpath + query == input
      ensures OriginForm(input) ==>
                && path == fullpath && protocol == old(protocol)
                && (fullpath + query == input <==> '?' in input || NUL !in input)
      ensures OriginForm(input) ==>
                var k := IndexOf(fullpath, ':');
                if k == |fullpath| then host == "" && port == old(port)
                else host == fullpath[..k] && port == ToInt(Atol(CStr(fullpath[k + 1..])))
      ensures ok && SchemeEnd(CStr(input)) > 0 ==>
                protocol == (if SchemeEnd(CStr(input)) == 7 then "http://" else "https://")
      ensures ok && SchemeEnd(CStr(input)) > 0 && '?' in input ==>
                var n := SchemeEnd(CStr(input));
                n <= |fullpath| && host == fullpath[..n - 3] && port == 0 && path == fullpath[n - 2..]
      ensures ok && SchemeEnd(CStr(input)) > 0 && '?' !in input ==>
                fullpath == CStr(input)[TargetAt(CStr(input))..] && path == fullpath
    {
      var c := CStr(input);
      if OriginForm(c) { OriginHasNoScheme(c); }
      assert c[0..] == c;
      var p := ParseScheme(c);
      SlashFound(c[SchemeEnd(c)..]);
      if p == -1 || p == |c| || c[p] != '/' {
        return false;
      }
      if SchemeEnd(c) > 0 && '?' in input { SchemeStays(input, SchemeEnd(c)); }
      ParseRest(input, c[p..]);
      ok := true;
    }
  }

  lemma OriginHasNoScheme(c: string)
    requires OriginForm(c)
    ensures SchemeEnd(c) == 0
  {
    assert |c| >= 7 ==> c[..7][0] == '/';
    assert |c| >= 8 ==> c[..8][0] == '/';
  }
}
