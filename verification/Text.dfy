/** C strings and decimals: the library functions that the parsers and printers call. */
module Text {

  const CR: char := '\r'
  const LF: char := '\n'
  const NUL: char := '\0'
  const CRLF: string := "\r\n"

  // ---------- C strings in a buffer ----------

  /** What a C string function sees of `s`: everything before the first NUL. */
  function CStr(s: string): (c: string)
    ensures |c| <= |s|
  {
    if s == [] || s[0] == NUL then [] else [s[0]] + CStr(s[1..])
  }

  /** At index `i` of `b` starts the C string `s`, terminated inside `b`. */
  predicate Holds(b: string, i: int, s: string) {
    && 0 <= i && i + |s| < |b| && b[i + |s|] == NUL
    && forall j {:trigger s[j]} | 0 <= j < |s| :: b[i + j] == s[j] && s[j] != NUL
  }

  lemma {:induction false} CStrAt(s: string, c: string)
    requires |c| < |s| && s[|c|] == NUL && forall j {:trigger c[j]} | 0 <= j < |c| :: s[j] == c[j] && c[j] != NUL
    ensures CStr(s) == c
  {
    if c != [] {
      assert s[0] == c[0];
      forall j {:trigger c[1..][j]} | 0 <= j < |c| - 1 ensures s[1..][j] == c[1..][j] && c[1..][j] != NUL {
        assert c[1..][j] == c[j + 1];
      }
      CStrAt(s[1..], c[1..]);
    }
  }

  lemma {:induction false} CStrEnds(s: string)
    ensures |CStr(s)| < |s| ==> s[|CStr(s)|] == NUL
    ensures forall j | 0 <= j < |CStr(s)| :: CStr(s)[j] == s[j] && s[j] != NUL
  {
    if s != [] && s[0] != NUL { CStrEnds(s[1..]); }
  }

  lemma PrefixHolds(b: string, i: nat, s: string, c: string)
    requires |c| <= |s| && i + |s| < |b| && b[i + |s|] == NUL && (|c| < |s| ==> s[|c|] == NUL)
    requires forall j {:trigger s[j]} | 0 <= j < |s| :: b[i + j] == s[j]
    requires forall j | 0 <= j < |c| :: c[j] == s[j] && s[j] != NUL
    ensures Holds(b, i, c)
  {
  }

  /** Text followed by NUL in a buffer is a C string: what comes before its own first NUL. */
  lemma CStrHolds(b: string, i: nat, s: string)
    requires i + |s| < |b| && b[i + |s|] == NUL && forall j {:trigger s[j]} | 0 <= j < |s| :: b[i + j] == s[j]
    ensures Holds(b, i, CStr(s))
  {
    CStrEnds(s);
    PrefixHolds(b, i, s, CStr(s));
  }

  lemma HoldsReads(b: string, i: nat, s: string)
    requires Holds(b, i, s)
    ensures CStr(b[i..]) == s
  {
    CStrAt(b[i..], s);
  }

  /** Moving the pointer forward drops a prefix. */
  lemma HoldsDrop(b: string, i: nat, s: string, k: nat)
    requires Holds(b, i, s) && k <= |s|
    ensures Holds(b, i + k, s[k..])
  {
    forall j {:trigger s[k..][j]} | 0 <= j < |s| - k ensures b[i + k + j] == s[k..][j] && s[k..][j] != NUL {
      assert s[k..][j] == s[k + j];
    }
  }

  /** Writing NUL at offset `k` cuts the string in two. */
  lemma HoldsCut(b: string, i: nat, s: string, k: nat)
    requires Holds(b, i, s) && k < |s|
    ensures Holds(b[i + k := NUL], i, s[..k]) && Holds(b[i + k := NUL], i + k + 1, s[k + 1..])
  {
    var c := b[i + k := NUL];
    forall j {:trigger s[..k][j]} | 0 <= j < k ensures c[i + j] == s[..k][j] && s[..k][j] != NUL {
      assert s[..k][j] == s[j];
    }
    forall j {:trigger s[k + 1..][j]} | 0 <= j < |s| - k - 1 ensures c[i + k + 1 + j] == s[k + 1..][j] && s[k + 1..][j] != NUL {
      assert s[k + 1..][j] == s[k + 1 + j];
    }
  }

  predicate IsSep(c: char) { c == ' ' || c == '\t' }

  /** strpbrk(s, " \t"): the first separator, or the length. */
  function SepIndex(s: string): (k: nat)
    ensures k <= |s|
  {
    if s == [] || IsSep(s[0]) then 0 else 1 + SepIndex(s[1..])
  }

  /** strspn(s, " \t"): the number of leading separators. */
  function LeadingSeps(s: string): (k: nat)
    ensures k <= |s|
  {
    if s == [] || !IsSep(s[0]) then 0 else 1 + LeadingSeps(s[1..])
  }

  function SkipSeps(s: string): string { s[LeadingSeps(s)..] }

  // ---------- comparison without case ----------

  function ToLower(c: char): char {
    if 'A' <= c <= 'Z' then c + 32 as char else c
  }

  /** strcasecmp(a, b) == 0. */
  predicate EqNoCase(a: string, b: string) {
    |a| == |b| && forall i | 0 <= i < |a| :: ToLower(a[i]) == ToLower(b[i])
  }

  /** strncasecmp(s, p, strlen(p)) == 0. */
  predicate StartsNoCase(s: string, p: string) {
    |p| <= |s| && EqNoCase(s[..|p|], p)
  }

  predicate CapitalOf(a: char, b: char) { 'A' <= a <= 'Z' && b as int == a as int + 32 }

  /** The same character, or the two cases of one letter. */
  predicate SameLetter(a: char, b: char) { a == b || CapitalOf(a, b) || CapitalOf(b, a) }

  /** `s` is `t` but for the case of its letters. */
  predicate Variant(s: string, t: string) {
    |s| == |t| && forall i | 0 <= i < |s| :: SameLetter(s[i], t[i])
  }

  predicate Begins(s: string, p: string) { |p| <= |s| && Variant(s[..|p|], p) }

  lemma SameLetterExactly(a: char, b: char)
    ensures ToLower(a) == ToLower(b) <==> SameLetter(a, b)
  {
  }

  /** strcasecmp finds no difference exactly where there is none but of case. */
  lemma EqNoCaseExactly(s: string, t: string)
    ensures EqNoCase(s, t) <==> Variant(s, t)
  {
    forall i | 0 <= i < |s| && |s| == |t| ensures ToLower(s[i]) == ToLower(t[i]) <==> SameLetter(s[i], t[i]) {
      SameLetterExactly(s[i], t[i]);
    }
  }

  /** The same for the beginning of a line. */
  lemma StartsNoCaseExactly(s: string, p: string)
    ensures StartsNoCase(s, p) <==> Begins(s, p)
  {
    if |p| <= |s| { EqNoCaseExactly(s[..|p|], p); }
  }

  // ---------- decimals ----------

  predicate IsDigit(c: char) { '0' <= c <= '9' }

  function Digit(d: nat): char
    requires d < 10
  {
    ['0', '1', '2', '3', '4', '5', '6', '7', '8', '9'][d]
  }

  function DigitValue(c: char): nat
    requires IsDigit(c)
  {
    (c as int) - ('0' as int)
  }

  /** %d of a number that is not negative. */
  function Decimal(n: nat): (s: string)
    ensures s != [] && forall c | c in s :: IsDigit(c)
  {
    if n < 10 then [Digit(n)] else Decimal(n / 10) + [Digit(n % 10)]
  }

  /** The leading digits of a string. */
  function Digits(s: string): (d: string)
    ensures d <= s && forall c | c in d :: IsDigit(c)
  {
    if s == [] || !IsDigit(s[0]) then [] else [s[0]] + Digits(s[1..])
  }

  function DigitsValue(d: string): nat
    requires forall c | c in d :: IsDigit(c)
  {
    if d == [] then 0
    else
      assert d[|d| - 1] in d;
      10 * DigitsValue(d[..|d| - 1]) + DigitValue(d[|d| - 1])
  }

  predicate IsSpace(c: char) { c == ' ' || '\t' <= c <= '\r' }

  function SkipSpace(s: string): string {
    if s == [] || !IsSpace(s[0]) then s else SkipSpace(s[1..])
  }

  const LONG_MAX: int := 0x7fff_ffff_ffff_ffff
  const INT_MAX: int := 0x7fff_ffff

  /** atol: blanks, a sign, digits; out of range it gives the nearest long. */
  function Atol(s: string): int {
    var t := SkipSpace(s);
    if t != [] && t[0] == '-' then
      var v: int := DigitsValue(Digits(t[1..]));
      if v > LONG_MAX then -LONG_MAX - 1 else -v
    else
      var v: int := DigitsValue(Digits(if t != [] && t[0] == '+' then t[1..] else t));
      if v > LONG_MAX then LONG_MAX else v
  }

  /** The conversion of a long to int keeps the low 32 bits. */
  function ToInt(v: int): int {
    var m := v % 0x1_0000_0000;
    if m > INT_MAX then m - 0x1_0000_0000 else m
  }

  lemma {:induction false} DigitsOfDecimal(d: string, rest: string)
    requires forall c | c in d :: IsDigit(c)
    requires rest == [] || !IsDigit(rest[0])
    ensures Digits(d + rest) == d
  {
    if d == [] {
      assert d + rest == rest;
    } else {
      assert d[0] in d && forall c | c in d[1..] :: c in d;
      assert (d + rest)[1..] == d[1..] + rest;
      DigitsOfDecimal(d[1..], rest);
    }
  }

  lemma {:induction false} ValueOfDecimal(n: nat)
    ensures DigitsValue(Decimal(n)) == n
  {
    if n < 10 {
      assert Decimal(n)[..0] == [];
    } else {
      ValueOfDecimal(n / 10);
      assert Decimal(n)[..|Decimal(n)| - 1] == Decimal(n / 10);
    }
  }

  /** Reading back a printed number, whatever follows it but another digit. */
  lemma AtolOfDecimal(n: nat, rest: string)
    requires n <= LONG_MAX && (rest == [] || !IsDigit(rest[0]))
    ensures Atol(Decimal(n) + rest) == n
  {
    assert Decimal(n)[0] in Decimal(n);
    assert (Decimal(n) + rest)[0] == Decimal(n)[0];
    DigitsOfDecimal(Decimal(n), rest);
    ValueOfDecimal(n);
  }

  lemma {:induction false} DecimalLength(n: nat, k: nat, bound: nat)
    requires k > 0 && n < bound && bound == Pow10(k)
    ensures |Decimal(n)| <= k
  {
    if n >= 10 && k > 1 {
      DecimalLength(n / 10, k - 1, Pow10(k - 1));
    }
  }

  function Pow10(k: nat): nat { if k == 0 then 1 else 10 * Pow10(k - 1) }

  lemma {:induction false} SkipBlanks(blanks: string, s: string)
    requires forall i | 0 <= i < |blanks| :: blanks[i] in " \t\n\U{0B}\U{0C}\r"
    requires s != [] && s[0] in "+-0123456789"
    ensures SkipSpace(blanks + s) == s
  {
    if blanks == [] {
      assert blanks + s == s;
    } else {
      assert blanks[0] in " \t\n\U{0B}\U{0C}\r" && (blanks + s)[1..] == blanks[1..] + s;
      SkipBlanks(blanks[1..], s);
    }
  }

  /** The sign that atol takes. */
  datatype Sign = Plain | Plus | Minus

  function SignText(sign: Sign): string {
    match sign
    case Plain => ""
    case Plus => "+"
    case Minus => "-"
  }

  /** The nearest number that a long holds. */
  function Nearest(v: int): int {
    if v > 0x7fff_ffff_ffff_ffff then 0x7fff_ffff_ffff_ffff
    else if v < -0x8000_0000_0000_0000 then -0x8000_0000_0000_0000
    else v
  }

  lemma AtolSkips(blanks: string, s: string)
    requires forall i | 0 <= i < |blanks| :: blanks[i] in " \t\n\U{0B}\U{0C}\r"
    requires s != [] && s[0] in "+-0123456789"
    ensures Atol(blanks + s) == Atol(s)
  {
    SkipBlanks(blanks, s);
    assert SkipSpace(s) == s;
  }

  lemma AtolSigned(sign: Sign, digits: string, n: nat)
    requires digits != [] && IsDigit(digits[0]) && Digits(digits) == Decimal(n)
    ensures Atol(SignText(sign) + digits) == Nearest(if sign.Minus? then 0 - n else n)
  {
    var s := SignText(sign) + digits;
    ValueOfDecimal(n);
    assert SkipSpace(s) == s;
    if sign.Plain? { assert s == digits; } else { assert s[1..] == digits; }
  }

  /** atol of any number: behind white space, signed or not, the nearest long. */
  lemma AtolOfNumber(blanks: string, sign: Sign, n: nat, rest: string)
    requires forall i | 0 <= i < |blanks| :: blanks[i] in " \t\n\U{0B}\U{0C}\r"
    requires rest == [] || !IsDigit(rest[0])
    ensures Atol(blanks + (SignText(sign) + (Decimal(n) + rest))) == Nearest(if sign.Minus? then 0 - n else n)
  {
    var digits := Decimal(n) + rest;
    assert digits[0] == Decimal(n)[0] && Decimal(n)[0] in Decimal(n);
    DigitsOfDecimal(Decimal(n), rest);
    AtolSigned(sign, digits, n);
    DigitIsOne(digits[0]);
    AtolSkips(blanks, SignText(sign) + digits);
  }

  lemma DigitIsOne(c: char)
    requires IsDigit(c)
    ensures c in "+-0123456789"
  {
    assert "0123456789"[c as int - '0' as int] == c;
  }

  /** ... and of anything else. */
  lemma AtolOfNone(s: string)
    requires s == "" || s[0] !in "+-0123456789 \t\n\U{0B}\U{0C}\r"
    ensures Atol(s) == 0
  {
    assert SkipSpace(s) == s && Digits(s) == "";
  }

  /** The conversion to an int keeps the value modulo 2^32. */
  lemma ToIntExactly(v: int)
    ensures -0x8000_0000 <= ToInt(v) <= 0x7fff_ffff && (v - ToInt(v)) % 0x1_0000_0000 == 0
    ensures -0x8000_0000 <= v <= 0x7fff_ffff ==> ToInt(v) == v
  {
  }

  /** The digits, as they are written. */
  lemma DecimalWrites()
    ensures Decimal(1024) == "1024" && Decimal(35) == "35" && Decimal(6789) == "6789"
  {
    assert Decimal(1) == "1" && Decimal(10) == Decimal(1) + "0" && Decimal(102) == Decimal(10) + "2";
    assert Decimal(3) == "3" && Decimal(6) == "6" && Decimal(67) == Decimal(6) + "7" && Decimal(678) == Decimal(67) + "8";
  }
}
