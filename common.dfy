/** Failure-compatible wrappers. */
module Wrappers {

  datatype Option<T> = None | Some(value: T) {
    predicate IsFailure() {
      None?
    }

    function PropagateFailure<U>(): Option<U>
      requires None?
    {
      None
    }

    function Extract(): T
      requires Some?
    {
      value
    }
  }

  datatype Result<T, E> = Ok(value: T) | Err(error: E) {
    predicate IsFailure() {
      Err?
    }

    function PropagateFailure<U>(): Result<U, E>
      requires Err?
    {
      Err(error)
    }

    function Extract(): T
      requires Ok?
    {
      value
    }
  }
}

/** The pieces of Python's `str`, `int()`, `float()` and `os.path` (POSIX)
    that the configuration code relies on, over `seq<char>`. */
module PyText {
  import opened Wrappers

  // ---------------------------------------------------------------------------
  // str.lower() and str.strip() (ASCII, as Python 2 byte strings in the C locale)
  // ---------------------------------------------------------------------------

  function LowerChar(c: char): char {
    if 'A' <= c <= 'Z' then (c as int + 32) as char else c
  }

  function Lower(s: string): (r: string)
    ensures |r| == |s| && forall i :: 0 <= i < |s| ==> r[i] == LowerChar(s[i])
  {
    seq(|s|, i requires 0 <= i < |s| => LowerChar(s[i]))
  }

  /** `str.lower()` yields a string without upper-case ASCII letters, and
      lowering twice is lowering once. */
  lemma LowerIsLower(s: string)
    ensures forall i :: 0 <= i < |Lower(s)| ==> !('A' <= Lower(s)[i] <= 'Z')
    ensures Lower(Lower(s)) == Lower(s)
  {
  }

  predicate IsSpace(c: char) {
    c == ' ' || c == '\t' || c == '\n' || c == '\r' || c as int == 11 || c as int == 12
  }

  function StripLeft(s: string): (r: string)
    ensures |r| <= |s| && (|r| > 0 ==> !IsSpace(r[0]))
  {
    if |s| > 0 && IsSpace(s[0]) then StripLeft(s[1..]) else s
  }

  function StripRight(s: string): (r: string)
    ensures |r| <= |s| && (|r| > 0 ==> !IsSpace(r[|r| - 1]))
  {
    if |s| > 0 && IsSpace(s[|s| - 1]) then StripRight(s[..|s| - 1]) else s
  }

  function Strip(s: string): string {
    StripRight(StripLeft(s))
  }

  // ---------------------------------------------------------------------------
  // Decimal integers: str(n) / '{:d}'.format(n), and int(s)
  // ---------------------------------------------------------------------------

  predicate IsDigit(c: char) {
    '0' <= c <= '9'
  }

  function DigitChar(d: nat): (c: char)
    requires d < 10
    ensures IsDigit(c)
  {
    ('0' as int + d) as char
  }

  function DigitValue(c: char): nat
    requires IsDigit(c)
  {
    c as int - '0' as int
  }

  predicate AllDigits(s: string) {
    forall i :: 0 <= i < |s| ==> IsDigit(s[i])
  }

  /** The number a string of decimal digits denotes, most significant first. */
  function DigitsValue(s: string): nat
    requires AllDigits(s)
  {
    if |s| == 0 then 0 else DigitsValue(s[..|s| - 1]) * 10 + DigitValue(s[|s| - 1])
  }

  /** The decimal digits of `n`, without leading zeros. */
  function FormatNat(n: nat): (s: string)
    ensures |s| > 0 && AllDigits(s)
  {
    if n < 10 then [DigitChar(n)] else FormatNat(n / 10) + [DigitChar(n % 10)]
  }

  /** `str(n)`, which is also `'{:d}'.format(n)`. */
  function FormatInt(n: int): (s: string)
    ensures |s| > 0 && !IsSpace(s[0]) && !IsSpace(s[|s| - 1]) && '/' !in s
  {
    if n < 0 then "-" + FormatNat(-n) else FormatNat(n)
  }

  /** `int(s)` for a string: surrounding white space, an optional sign that
      white space may follow, and at least one decimal digit; None stands for
      the ValueError raised otherwise. */
  function ParseInt(s: string): (r: Option<int>)
    ensures r.Some? ==> |Strip(s)| > 0 && (AllDigits(Strip(s)) || Strip(s)[0] in "+-")
  {
    var t := Strip(s);
    var neg := |t| > 0 && t[0] == '-';
    var body := if |t| > 0 && (t[0] == '-' || t[0] == '+') then StripLeft(t[1..]) else t;
    if |body| == 0 || !AllDigits(body) then None
    else Some(if neg then -(DigitsValue(body) as int) else DigitsValue(body))
  }

  lemma {:induction false} DigitsOfFormat(n: nat)
    ensures DigitsValue(FormatNat(n)) == n
  {
    if n >= 10 {
      DigitsOfFormat(n / 10);
      var s := FormatNat(n);
      assert s[..|s| - 1] == FormatNat(n / 10);
    }
  }

  lemma StripUnchanged(s: string)
    requires |s| > 0 && !IsSpace(s[0]) && !IsSpace(s[|s| - 1])
    ensures Strip(s) == s
  {
  }

  /** `int(str(n)) == n`: the ini view's '{:d}' text loads back exactly. */
  lemma ParseFormatInt(n: int)
    ensures ParseInt(FormatInt(n)) == Some(n)
  {
    var s := FormatInt(n);
    assert Strip(s) == s by {
      StripUnchanged(s);
    }
    if n < 0 {
      var d := FormatNat(-n);
      assert StripLeft(s[1..]) == d by {
        assert s[1..] == d && IsDigit(d[0]);
      }
      DigitsOfFormat(-n);
    } else {
      DigitsOfFormat(n);
    }
  }

  /** White space between the sign and the digits is skipped, as Python 2's
      `int()` skips it again after reading the sign. */
  lemma ParseIntSpaceAfterSign()
    ensures ParseInt("- 5") == Some(-5)
  {
    assert Strip("- 5") == "- 5" && "- 5"[1..] == " 5";
    assert StripLeft(" 5") == "5";
  }

  /** The same after a plus sign and a tab. */
  lemma ParseIntTabAfterPlus()
    ensures ParseInt("+\t7") == Some(7)
  {
    assert Strip("+\t7") == "+\t7" && "+\t7"[1..] == "\t7";
    assert StripLeft("\t7") == "7";
  }

  /** Distinct run ids print as distinct strings. */
  lemma FormatIntInjective(a: int, b: int)
    requires FormatInt(a) == FormatInt(b)
    ensures a == b
  {
    ParseFormatInt(a);
    ParseFormatInt(b);
  }

  // ---------------------------------------------------------------------------
  // float(s) for a string: decimal text with an optional exponent
  // ---------------------------------------------------------------------------

  /** The first index of `c` in `s`, or |s| when there is none. */
  function Find(s: string, c: char): (i: nat)
    ensures i <= |s| && (forall k :: 0 <= k < i ==> s[k] != c) && (i < |s| ==> s[i] == c)
  {
    if |s| == 0 then 0
    else if s[0] == c then 0
    else 1 + Find(s[1..], c)
  }

  /** The first index of `e` or `E` in `s`, or |s| when there is neither. */
  function FindExp(s: string): (i: nat)
    ensures i <= |s| && (forall k :: 0 <= k < i ==> s[k] != 'e' && s[k] != 'E')
    ensures i < |s| ==> s[i] == 'e' || s[i] == 'E'
  {
    var a := Find(s, 'e');
    var b := Find(s, 'E');
    if a <= b then a else b
  }

  /** The exponent of a float literal: `[sign] digits`. */
  function ParseExponent(s: string): Option<int> {
    var neg := |s| > 0 && s[0] == '-';
    var digits := if |s| > 0 && (s[0] == '-' || s[0] == '+') then s[1..] else s;
    if |digits| == 0 || !AllDigits(digits) then None
    else Some(if neg then -(DigitsValue(digits) as int) else DigitsValue(digits))
  }

  /** `m * 10^e`, one factor of ten at a time. */
  function Scale10(m: real, e: int): real
    decreases if e < 0 then -e else e
  {
    if e == 0 then m else if e > 0 then 10.0 * Scale10(m, e - 1) else Scale10(m, e + 1) / 10.0
  }

  /** What a left-to-right read of a mantissa has seen so far: the number
      all its digits denote, how many digits follow the point, whether the
      point was seen, and how many digits there are. */
  datatype MantissaScan = MantissaScan(digits: nat, fracLen: nat, dot: bool, count: nat)

  /** Reads `digits [. digits]`; None at any other character or at a
      second point. */
  function ScanMantissa(m: string): Option<MantissaScan>
    decreases |m|
  {
    if |m| == 0 then Some(MantissaScan(0, 0, false, 0))
    else
      var r := ScanMantissa(m[..|m| - 1]);
      var c := m[|m| - 1];
      if r.None? then None
      else if IsDigit(c) then
        Some(MantissaScan(r.value.digits * 10 + DigitValue(c),
                          if r.value.dot then r.value.fracLen + 1 else 0, r.value.dot, r.value.count + 1))
      else if c == '.' && !r.value.dot then Some(MantissaScan(r.value.digits, 0, true, r.value.count))
      else None
  }

  /** The mantissa of a float literal, `digits [. digits]` or `. digits`: the
      number its digits denote without the point, and how many of them follow
      the point. */
  function ParseMantissa(m: string): Option<(nat, nat)> {
    var r := ScanMantissa(m);
    if r.None? || r.value.count == 0 then None else Some((r.value.digits, r.value.fracLen))
  }

  /** An unsigned float literal: a mantissa and an optional exponent. */
  function ParseUnsignedFloat(body: string): Option<real> {
    var ePos := FindExp(body);
    var mantissa := ParseMantissa(if ePos < |body| then body[..ePos] else body);
    var exp := if ePos < |body| then ParseExponent(body[ePos + 1..]) else Some(0);
    if mantissa.None? || exp.None? then None
    else Some(Scale10(mantissa.value.0 as real, exp.value - mantissa.value.1))
  }

  /** `float(s)` for decimal text `[sign] mantissa [(e|E) [sign] digits]`, with
      surrounding white space; None stands for the ValueError raised
      otherwise. */
  function ParseFloat(s: string): Option<real> {
    var t := Strip(s);
    var neg := |t| > 0 && t[0] == '-';
    var body := if |t| > 0 && (t[0] == '-' || t[0] == '+') then t[1..] else t;
    var mag := ParseUnsignedFloat(body);
    if mag.None? then None else Some(if neg then -mag.value else mag.value)
  }

  /** `Find` stops at the first occurrence. */
  lemma FindFirst(s: string, c: char, k: nat)
    requires k < |s| && (forall j :: 0 <= j < k ==> s[j] != c) && s[k] == c
    ensures Find(s, c) == k
  {
  }

  /** Digits carry no exponent marker and no decimal point, so neither is
      found in them. */
  lemma DigitsMarkers(d: string)
    requires AllDigits(d)
    ensures Find(d, 'e') == |d| && Find(d, 'E') == |d| && Find(d, '.') == |d|
  {
    assert 'e' !in d && 'E' !in d && '.' !in d;
  }

  /** A string of digits is a mantissa denoting that number. */
  lemma MantissaDigits(d: string)
    requires |d| > 0 && AllDigits(d)
    ensures ParseMantissa(d) == Some((DigitsValue(d), 0))
  {
    ScanDigits(d);
  }

  /** Reading digits only sees no point, and counts and values every digit. */
  lemma {:induction false} ScanDigits(d: string)
    requires AllDigits(d)
    ensures ScanMantissa(d) == Some(MantissaScan(DigitsValue(d), 0, false, |d|))
    decreases |d|
  {
    if |d| > 0 {
      ScanDigits(d[..|d| - 1]);
    }
  }

  /** A string of digits reads as the number it denotes. */
  lemma ParseDigits(d: string)
    requires |d| > 0 && AllDigits(d)
    ensures ParseUnsignedFloat(d) == Some(DigitsValue(d) as real)
  {
    DigitsMarkers(d);
    assert FindExp(d) == |d|;
    MantissaDigits(d);
  }

  /** Text that starts with a digit and ends without white space is read
      as an unsigned literal. */
  lemma ParseFloatUnsigned(s: string)
    requires |s| > 0 && IsDigit(s[0]) && !IsSpace(s[|s| - 1])
    ensures ParseFloat(s) == ParseUnsignedFloat(s)
  {
    StripUnchanged(s);
  }

  /** An exponent `[sign] digits` denotes the signed number. */
  lemma ExponentDigits(sign: string, e: string)
    requires sign == "" || sign == "+" || sign == "-"
    requires |e| > 0 && AllDigits(e)
    ensures ParseExponent(sign + e) == Some(if sign == "-" then -(DigitsValue(e) as int) else DigitsValue(e))
  {
    var s := sign + e;
    if sign == "-" {
      assert ParseExponent(s) == Some(-(DigitsValue(e) as int)) by {
        assert s[0] == '-' && s[1..] == e;
      }
    } else if sign == "+" {
      assert ParseExponent(s) == Some(DigitsValue(e) as int) by {
        assert s[0] == '+' && s[1..] == e;
      }
    } else {
      assert ParseExponent(s) == Some(DigitsValue(e) as int) by {
        assert s == e && IsDigit(e[0]);
      }
    }
  }

  /** Digits, an exponent marker and exponent text: the digits scaled by the
      exponent, if the exponent text reads. */
  lemma UnsignedScientific(m: string, marker: char, rest: string)
    requires |m| > 0 && AllDigits(m) && (marker == 'e' || marker == 'E')
    ensures ParseUnsignedFloat(m + [marker] + rest) ==
            if ParseExponent(rest).None? then None else Some(Scale10(DigitsValue(m) as real, ParseExponent(rest).value))
  {
    var s := m + [marker] + rest;
    assert s[..|m|] == m && s[|m|] == marker && s[|m| + 1..] == rest;
    assert 'e' !in m && 'E' !in m;
    if marker == 'e' {
      FindFirst(s, 'e', |m|);
    } else {
      FindFirst(s, 'E', |m|);
    }
    assert FindExp(s) == |m|;
    UnsignedAtMarker(s, |m|);
    MantissaDigits(m);
  }

  /** With its first exponent marker at `k`, a literal reads as the mantissa
      before the marker scaled by the exponent after it. */
  lemma UnsignedAtMarker(body: string, k: nat)
    requires k < |body| && FindExp(body) == k
    ensures var mantissa := ParseMantissa(body[..k]);
            var exp := ParseExponent(body[k + 1..]);
            ParseUnsignedFloat(body) ==
              if mantissa.None? || exp.None? then None
              else Some(Scale10(mantissa.value.0 as real, exp.value - mantissa.value.1))
  {
  }

  /** Scientific notation `digits (e|E) [sign] digits` reads as the mantissa
      times ten to the signed exponent. */
  lemma ParseScientific(m: string, marker: char, sign: string, e: string)
    requires |m| > 0 && AllDigits(m) && (marker == 'e' || marker == 'E')
    requires sign == "" || sign == "+" || sign == "-"
    requires |e| > 0 && AllDigits(e)
    ensures ParseFloat(m + [marker] + sign + e) ==
            Some(Scale10(DigitsValue(m) as real, if sign == "-" then -(DigitsValue(e) as int) else DigitsValue(e)))
  {
    var s := m + [marker] + (sign + e);
    assert m + [marker] + sign + e == s;
    assert s[0] == m[0] && s[|s| - 1] == e[|e| - 1];
    ParseFloatUnsigned(s);
    UnsignedScientific(m, marker, sign + e);
    ExponentDigits(sign, e);
  }

  /** An upper-case `E` with an unsigned exponent multiplies. */
  lemma ParseFloatUpperExponent()
    ensures ParseFloat("2E5") == Some(200000.0)
  {
    assert Strip("2E5") == "2E5";
    assert FindExp("2E5") == 1;
    UnsignedAtMarker("2E5", 1);
    assert "2E5"[..1] == "2" && "2E5"[2..] == "5";
    assert ParseMantissa("2") == Some((2, 0));
    assert ParseExponent("5") == Some(5);
    assert Scale10(2.0, 5) == 200000.0;
  }

  /** An exponent marker without digits is a ValueError. */
  lemma ParseFloatEmptyExponent()
    ensures ParseFloat("1e").None?
  {
    assert Strip("1e") == "1e";
    assert FindExp("1e") == 1;
    assert "1e"[2..] == "";
  }

  /** A minus sign followed by digits reads as the negated number. */
  lemma ParseFloatNegative(d: string)
    requires |d| > 0 && AllDigits(d)
    ensures ParseFloat("-" + d) == Some(-(DigitsValue(d) as real))
  {
    var s := "-" + d;
    assert Strip(s) == s by {
      assert IsDigit(d[|d| - 1]);
      StripUnchanged(s);
    }
    assert ParseUnsignedFloat(s[1..]) == Some(DigitsValue(d) as real) by {
      assert s[1..] == d;
      ParseDigits(d);
    }
    ParseFloatMinus(s);
  }

  /** Stripped text with a leading minus reads as the negated unsigned rest. */
  lemma ParseFloatMinus(t: string)
    requires |t| > 0 && t[0] == '-' && Strip(t) == t
    ensures ParseFloat(t) == if ParseUnsignedFloat(t[1..]).None? then None else Some(-ParseUnsignedFloat(t[1..]).value)
  {
  }

  /** The text `str(n)` of an integer reads back as that number. */
  lemma ParseFloatFormatInt(n: int)
    ensures ParseFloat(FormatInt(n)) == Some(n as real)
  {
    if n < 0 {
      ParseFloatNegative(FormatNat(-n));
      DigitsOfFormat(-n);
    } else {
      var d := FormatNat(n);
      assert ParseFloat(d) == ParseUnsignedFloat(d) by {
        assert IsDigit(d[0]);
        ParseFloatUnsigned(d);
      }
      ParseDigits(d);
      DigitsOfFormat(n);
    }
  }

  // ---------------------------------------------------------------------------
  // str.split(sep) and sep.join(items)
  // ---------------------------------------------------------------------------

  /** `s.split(c)`: always at least one piece; "" splits into [""]. */
  function Split(s: string, c: char): (r: seq<string>)
    ensures |r| > 0
    decreases |s|
  {
    var i := Find(s, c);
    if i == |s| then [s] else [s[..i]] + Split(s[i + 1..], c)
  }

  /** `c.join(items)`. */
  function Join(items: seq<string>, c: char): string {
    if |items| == 0 then ""
    else if |items| == 1 then items[0]
    else items[0] + [c] + Join(items[1..], c)
  }

  lemma FindAfter(a: string, b: string, c: char)
    requires c !in a
    ensures Find(a + [c] + b, c) == |a|
  {
    var s := a + [c] + b;
    assert s[|a|] == c;
  }

  lemma FindNone(a: string, c: char)
    requires c !in a
    ensures Find(a, c) == |a|
  {
  }

  /** Splitting at the first separator. */
  lemma SplitFirst(a: string, rest: string, c: char)
    requires c !in a
    ensures Split(a + [c] + rest, c) == [a] + Split(rest, c)
  {
    var s := a + [c] + rest;
    FindAfter(a, rest, c);
    assert s[..|a|] == a;
    assert s[|a| + 1..] == rest;
  }

  /** Joining a list of two or more items. */
  lemma JoinFirst(a: string, r: seq<string>, c: char)
    requires |r| > 0
    ensures Join([a] + r, c) == a + [c] + Join(r, c)
  {
    assert ([a] + r)[1..] == r;
  }

  /** Loading what was joined gives the items back, provided there is at
      least one item and no item contains the separator. */
  lemma {:induction false} SplitJoin(items: seq<string>, c: char)
    requires |items| > 0
    requires forall k :: 0 <= k < |items| ==> c !in items[k]
    ensures Split(Join(items, c), c) == items
  {
    if |items| == 1 {
      FindNone(items[0], c);
    } else {
      var tail := items[1..];
      assert items == [items[0]] + tail;
      JoinFirst(items[0], tail, c);
      SplitFirst(items[0], Join(tail, c), c);
      SplitJoin(tail, c);
    }
  }

  /** Joining what was split gives the text back, for any text. */
  lemma {:induction false} JoinSplit(s: string, c: char)
    ensures Join(Split(s, c), c) == s
    decreases |s|
  {
    var i := Find(s, c);
    if i < |s| {
      var head, rest := s[..i], s[i + 1..];
      assert s == head + [c] + rest;
      SplitFirst(head, rest, c);
      JoinSplit(rest, c);
      JoinFirst(head, Split(rest, c), c);
    } else {
      assert Split(s, c) == [s];
    }
  }

  /** An empty list does not survive a join and a split: it comes back as [""]. */
  lemma EmptyListDoesNotRoundTrip(c: char)
    ensures Split(Join([], c), c) == [""]
  {
  }

  // ---------------------------------------------------------------------------
  // os.path (posixpath): dirname, basename, join
  // ---------------------------------------------------------------------------

  /** `s.rfind(c)`: the last index of `c` in `s`, or -1. */
  function RFind(s: string, c: char): (i: int)
    ensures -1 <= i < |s|
    ensures i >= 0 ==> s[i] == c
    ensures c !in s[i + 1..]
  {
    if |s| == 0 then -1
    else if s[|s| - 1] == c then |s| - 1
    else RFind(s[..|s| - 1], c)
  }

  predicate AllSlashes(s: string) {
    forall i :: 0 <= i < |s| ==> s[i] == '/'
  }

  /** `s.rstrip('/')`. */
  function RStripSlash(s: string): (r: string)
    ensures r <= s && (|r| > 0 ==> r[|r| - 1] != '/')
  {
    if |s| > 0 && s[|s| - 1] == '/' then RStripSlash(s[..|s| - 1]) else s
  }

  /** `posixpath.dirname(p)`: everything up to the last '/', with trailing
      slashes removed unless the head is made only of slashes. */
  function Dirname(p: string): string {
    var head := p[..RFind(p, '/') + 1];
    if |head| > 0 && !AllSlashes(head) then RStripSlash(head) else head
  }

  /** `posixpath.basename(p)`: everything after the last '/'. */
  function Basename(p: string): string {
    p[RFind(p, '/') + 1..]
  }

  /** `posixpath.join(a, b)` for two components. */
  function JoinPath(a: string, b: string): string {
    if |b| > 0 && b[0] == '/' then b
    else if |a| == 0 || a[|a| - 1] == '/' then a + b
    else a + "/" + b
  }

  /** Text appended after the last occurrence of `c` does not move it. */
  lemma {:induction false} RFindAppend(x: string, y: string, c: char)
    requires c !in y
    ensures RFind(x + y, c) == RFind(x, c)
    decreases |y|
  {
    if |y| > 0 {
      var y' := y[..|y| - 1];
      assert (x + y)[..|x + y| - 1] == x + y';
      RFindAppend(x, y', c);
    } else {
      assert x + y == x;
    }
  }

  /** A directory name is empty, made only of slashes, or ends in a
      character other than '/'. */
  lemma DirnameShape(p: string)
    ensures var d := Dirname(p);
      |d| == 0 || AllSlashes(d) || d[|d| - 1] != '/'
  {
  }

  /** Joining a plain name onto a directory makes the name the last
      component. */
  lemma JoinBasename(d: string, b: string)
    requires |b| > 0 && '/' !in b
    ensures Basename(JoinPath(d, b)) == b
  {
    assert b[0] != '/' by {
      assert b[0] in b;
    }
    var h: string;
    if |d| == 0 || d[|d| - 1] == '/' {
      h := d;
      assert JoinPath(d, b) == h + b;
    } else {
      h := d + "/";
      assert JoinPath(d, b) == h + b;
    }
    assert RFind(h, '/') == |h| - 1;
    RFindAppend(h, b, '/');
    assert (h + b)[|h|..] == b;
  }

  /** Joining a plain name onto a directory name, as Dirname produces them,
      gives back that directory as the parent. */
  lemma JoinDirname(d: string, b: string)
    requires |b| > 0 && '/' !in b
    requires |d| == 0 || AllSlashes(d) || d[|d| - 1] != '/'
    ensures Dirname(JoinPath(d, b)) == d
  {
    assert b[0] != '/' by {
      assert b[0] in b;
    }
    if |d| == 0 || AllSlashes(d) {
      assert JoinPath(d, b) == d + b by {
        if |d| > 0 { assert d[|d| - 1] == '/'; }
      }
      HeadOfJoin(d, b);
    } else {
      assert JoinPath(d, b) == (d + "/") + b;
      HeadOfJoin(d + "/", b);
      SlashedDirname(d);
    }
  }

  /** Everything up to a trailing '/' is the head of the path it starts. */
  lemma HeadOfJoin(h: string, b: string)
    requires |h| == 0 || h[|h| - 1] == '/'
    requires '/' !in b
    ensures Dirname(h + b) == if |h| > 0 && !AllSlashes(h) then RStripSlash(h) else h
  {
    var p := h + b;
    assert p[..RFind(p, '/') + 1] == h by {
      HeadAfterAppend(h, b);
    }
    DirnameOfHead(p, h);
  }

  lemma HeadAfterAppend(h: string, b: string)
    requires |h| == 0 || h[|h| - 1] == '/'
    requires '/' !in b
    ensures (h + b)[..RFind(h + b, '/') + 1] == h
  {
    assert RFind(h, '/') == |h| - 1;
    RFindAppend(h, b, '/');
  }

  lemma DirnameOfHead(p: string, h: string)
    requires p[..RFind(p, '/') + 1] == h
    ensures Dirname(p) == if |h| > 0 && !AllSlashes(h) then RStripSlash(h) else h
  {
  }

  /** The head "d/" of a path strips back to d. */
  lemma SlashedDirname(d: string)
    requires |d| > 0 && !AllSlashes(d) && d[|d| - 1] != '/'
    ensures !AllSlashes(d + "/") && RStripSlash(d + "/") == d
  {
    var h := d + "/";
    var i :| 0 <= i < |d| && d[i] != '/';
    assert h[i] != '/';
    assert h[..|h| - 1] == d;
  }
}
