/** The string operations the game relies on: trimming, ASCII upper-casing, and decimal
    rendering and parsing of non-negative integers. */
module Text {
  import opened Wrappers

  /** The ECMAScript WhiteSpace and LineTerminator code points: what `String.prototype.trim`
      strips and what `parseInt` skips before the number. */
  predicate IsSpace(c: char) {
    || c == ' ' || c == '\t' || c == '\n' || c == '\r'
    || c == '\U{B}' || c == '\U{C}' || c == '\U{A0}' || c == '\U{FEFF}' || c == '\U{1680}'
    || ('\U{2000}' <= c <= '\U{200A}')
    || c == '\U{2028}' || c == '\U{2029}' || c == '\U{202F}' || c == '\U{205F}' || c == '\U{3000}'
  }

  /** `s` with its leading white space removed. */
  function TrimStart(s: string): (r: string)
    ensures |r| <= |s| && r == s[|s| - |r|..]
    ensures |r| > 0 ==> !IsSpace(r[0])
    ensures forall i :: 0 <= i < |s| - |r| ==> IsSpace(s[i])
  {
    if |s| > 0 && IsSpace(s[0]) then TrimStart(s[1..]) else s
  }

  /** `s` with its trailing white space removed. */
  function TrimEnd(s: string): (r: string)
    ensures |r| <= |s| && r == s[..|r|]
    ensures |r| > 0 ==> !IsSpace(r[|r| - 1])
    ensures forall i :: |r| <= i < |s| ==> IsSpace(s[i])
  {
    if |s| > 0 && IsSpace(s[|s| - 1]) then TrimEnd(s[..|s| - 1]) else s
  }

  /** `String.prototype.trim`. */
  function Trim(s: string): (r: string)
    ensures |r| > 0 ==> !IsSpace(r[0]) && !IsSpace(r[|r| - 1])
    ensures |r| <= |s|
    ensures r == "" <==> forall i :: 0 <= i < |s| ==> IsSpace(s[i])
  {
    var t := TrimStart(s);
    var r := TrimEnd(t);
    AllSpaceWhenTrimmedEmpty(s, t, r);
    r
  }

  /** `r` is the run of `s` starting at `i`, and everything of `s` before and after that run is
      white space. */
  predicate InnerRun(s: string, i: int, r: string) {
    && 0 <= i <= |s| - |r| && r == s[i..i + |r|]
    && (forall k :: 0 <= k < i ==> IsSpace(s[k]))
    && (forall k :: i + |r| <= k < |s| ==> IsSpace(s[k]))
  }

  /** Trimming only cuts white space off the ends: the result is the run of `s` that starts
      after the leading white space, and everything after that run is white space too. */
  lemma TrimKeepsInnerRun(s: string)
    ensures InnerRun(s, |s| - |TrimStart(s)|, Trim(s))
  {
    var t := TrimStart(s);
    var r := TrimEnd(t);
    assert Trim(s) == r;
    TrimRun(s, t, r);
  }

  lemma TrimRun(s: string, t: string, r: string)
    requires |t| <= |s| && t == s[|s| - |t|..] && forall k :: 0 <= k < |s| - |t| ==> IsSpace(s[k])
    requires |r| <= |t| && r == t[..|r|] && forall j :: |r| <= j < |t| ==> IsSpace(t[j])
    ensures InnerRun(s, |s| - |t|, r)
  {
    CutEnds(s, t, r, IsSpace);
  }

  /** Cutting `i` leading and some trailing elements that satisfy `p` leaves the run
      `s[i..i + n]`, with `p` holding on everything cut. */
  lemma CutEnds<T>(s: seq<T>, t: seq<T>, r: seq<T>, p: T -> bool)
    requires |t| <= |s| && t == s[|s| - |t|..]
    requires |r| <= |t| && r == t[..|r|]
    requires forall j :: |r| <= j < |t| ==> p(t[j])
    ensures r == s[|s| - |t|..|s| - |t| + |r|]
    ensures forall k :: |s| - |t| + |r| <= k < |s| ==> p(s[k])
  {
    var i := |s| - |t|;
    forall k | i + |r| <= k < |s| ensures p(s[k]) {
      assert s[k] == t[k - i];
    }
  }

  lemma AllSpaceWhenTrimmedEmpty(s: string, t: string, r: string)
    requires t == TrimStart(s) && r == TrimEnd(t)
    ensures r == "" ==> forall i :: 0 <= i < |s| ==> IsSpace(s[i])
  {
    if r == "" {
      assert |t| == 0;
    }
  }

  /** Trimming an already trimmed string changes nothing. */
  lemma TrimIdempotent(s: string)
    ensures Trim(Trim(s)) == Trim(s)
  {
    var t := Trim(s);
    if |t| > 0 {
      assert TrimStart(t) == t;
      assert TrimEnd(t) == t;
    }
  }

  /** Upper-case form of an ASCII letter; every other character is kept. */
  function UpperChar(c: char): char {
    if 'a' <= c <= 'z' then (c as int - 32) as char else c
  }

  /** `String.prototype.toUpperCase`, restricted to the ASCII letters. */
  function ToUpperAscii(s: string): (r: string)
    ensures |r| == |s|
    ensures forall i :: 0 <= i < |r| ==> !('a' <= r[i] <= 'z')
    ensures forall i :: 0 <= i < |s| && !('a' <= s[i] <= 'z') ==> r[i] == s[i]
  {
    seq(|s|, i requires 0 <= i < |s| => UpperChar(s[i]))
  }

  /** Upper-casing twice is upper-casing once. */
  lemma UpperIdempotent(s: string)
    ensures ToUpperAscii(ToUpperAscii(s)) == ToUpperAscii(s)
  {
  }

  predicate IsDigit(c: char) {
    '0' <= c <= '9'
  }

  predicate AllDigits(s: string) {
    forall i :: 0 <= i < |s| ==> IsDigit(s[i])
  }

  function DigitChar(d: nat): (c: char)
    requires d < 10
    ensures IsDigit(c)
  {
    ('0' as int + d) as char
  }

  function DigitValue(c: char): (d: nat)
    requires IsDigit(c)
    ensures d < 10 && DigitChar(d) == c
  {
    (c as int - '0' as int)
  }

  /** Decimal rendering of a non-negative integer, without leading zeros (`Number.prototype.toString`). */
  function Show(n: nat): (r: string)
    ensures |r| >= 1 && AllDigits(r)
    ensures |r| > 1 ==> r[0] != '0'
    decreases n
  {
    if n < 10 then [DigitChar(n)] else Show(n / 10) + [DigitChar(n % 10)]
  }

  /** Value of a string of decimal digits. */
  function ParseDigits(s: string): nat
    requires AllDigits(s)
  {
    if |s| == 0 then 0 else ParseDigits(s[..|s| - 1]) * 10 + DigitValue(s[|s| - 1])
  }

  /** Parsing the rendering of `n` gives `n` back. */
  lemma {:induction false} ParseShow(n: nat)
    ensures ParseDigits(Show(n)) == n
    decreases n
  {
    if n >= 10 {
      ParseShow(n / 10);
      var s := Show(n);
      assert s[..|s| - 1] == Show(n / 10);
    }
  }

  /** Different numbers render differently. */
  lemma ShowInjective(a: nat, b: nat)
    requires Show(a) == Show(b)
    ensures a == b
  {
    ParseShow(a);
    ParseShow(b);
  }

  /** `String.prototype.padStart` with a one-character filler. */
  function PadStart(s: string, width: nat, fill: char): (r: string)
    ensures |r| == if |s| >= width then |s| else width
    ensures r[|r| - |s|..] == s
    ensures forall i :: 0 <= i < |r| - |s| ==> r[i] == fill
  {
    if |s| >= width then s else seq(width - |s|, _ => fill) + s
  }

  /** Length of the longest prefix of `s` made of decimal digits. */
  function DigitPrefixLength(s: string): (k: nat)
    ensures k <= |s| && AllDigits(s[..k])
    ensures k < |s| ==> !IsDigit(s[k])
  {
    if |s| == 0 || !IsDigit(s[0]) then 0
    else
      var k := DigitPrefixLength(s[1..]);
      assert s[..k + 1] == [s[0]] + s[1..][..k];
      k + 1
  }

  /** Whether `parseInt` reads a minus sign: the first character after the white space is '-'. */
  predicate Negative(s: string) {
    var t := TrimStart(s);
    |t| > 0 && t[0] == '-'
  }

  /** What `parseInt` reads digits from: `s` after its leading white space and one sign. */
  function NumberBody(s: string): (body: string)
    ensures |body| <= |s|
  {
    var t := TrimStart(s);
    if |t| > 0 && (t[0] == '-' || t[0] == '+') then t[1..] else t
  }

  /** `parseInt` in base ten: leading white space is skipped, one sign is read, then the longest
      run of digits; `None` stands for `NaN`, the result when no digit follows. */
  function ParseInt(s: string): (r: Option<int>)
    ensures r.None? <==> |NumberBody(s)| == 0 || !IsDigit(NumberBody(s)[0])
  {
    ReadDigits(NumberBody(s), Negative(s))
  }

  /** The value of the digit run at the start of `body`, negated when a minus sign was read;
      `None` when `body` does not start with a digit. */
  function ReadDigits(body: string, negative: bool): (r: Option<int>)
    ensures r.None? <==> |body| == 0 || !IsDigit(body[0])
  {
    var k := DigitPrefixLength(body);
    if k == 0 then None
    else
      var v: int := ParseDigits(body[..k]);
      Some(if negative then -v else v)
  }

  /** `parseInt` reads back every rendering produced by `Show`. */
  lemma ParseIntShow(n: nat)
    ensures ParseInt(Show(n)) == Some(n)
  {
    var s := Show(n);
    assert IsDigit(s[0]);
    assert !IsSpace(s[0]);
    assert TrimStart(s) == s;
    assert NumberBody(s) == s;
    DigitsPrefixAll(s);
    assert s[..|s|] == s;
    ParseShow(n);
  }

  lemma {:induction false} DigitsPrefixAll(s: string)
    requires AllDigits(s)
    ensures DigitPrefixLength(s) == |s|
  {
    if |s| > 0 {
      DigitsPrefixAll(s[1..]);
    }
  }
  /** Leading white space is skipped up to the first other character. */
  lemma {:induction false} TrimStartSkips(w: string, rest: string)
    requires forall i :: 0 <= i < |w| ==> IsSpace(w[i])
    requires |rest| == 0 || !IsSpace(rest[0])
    ensures TrimStart(w + rest) == rest
  {
    if |w| > 0 {
      assert (w + rest)[0] == w[0] && (w + rest)[1..] == w[1..] + rest;
      TrimStartSkips(w[1..], rest);
    } else {
      assert w + rest == rest;
    }
  }

  /** The digit run ends where the digits do. */
  lemma {:induction false} DigitPrefixOf(d: string, tail: string)
    requires AllDigits(d) && (|tail| == 0 || !IsDigit(tail[0]))
    ensures DigitPrefixLength(d + tail) == |d|
  {
    if |d| > 0 {
      assert (d + tail)[0] == d[0] && (d + tail)[1..] == d[1..] + tail;
      DigitPrefixOf(d[1..], tail);
    } else {
      assert d + tail == tail;
    }
  }

  /** Leading zeros do not change the value of a digit string. */
  lemma {:induction false} LeadingZeros(z: string, d: string)
    requires forall i :: 0 <= i < |z| ==> z[i] == '0'
    requires AllDigits(d)
    ensures AllDigits(z + d) && ParseDigits(z + d) == ParseDigits(d)
  {
    if |d| == 0 {
      assert z + d == z;
      ZerosParseToZero(z);
    } else {
      var init := d[..|d| - 1];
      assert (z + d)[..|z + d| - 1] == z + init;
      assert (z + d)[|z + d| - 1] == d[|d| - 1];
      LeadingZeros(z, init);
    }
  }

  lemma {:induction false} ZerosParseToZero(z: string)
    requires forall i :: 0 <= i < |z| ==> z[i] == '0'
    ensures AllDigits(z) && ParseDigits(z) == 0
  {
    if |z| > 0 {
      ZerosParseToZero(z[..|z| - 1]);
    }
  }

  /** `parseInt` reads a number written after white space, with an optional sign and leading
      zeros, and stops at the first character that is not a digit. */
  lemma ParseIntReads(x: string, w: string, sign: string, z: string, n: nat, tail: string)
    requires forall i :: 0 <= i < |w| ==> IsSpace(w[i])
    requires sign == "" || sign == "-" || sign == "+"
    requires forall i :: 0 <= i < |z| ==> z[i] == '0'
    requires |tail| == 0 || !IsDigit(tail[0])
    requires x == w + sign + z + Show(n) + tail
    ensures ParseInt(x) == Some(if sign == "-" then -(n as int) else n as int)
  {
    var d := z + Show(n);
    var body := d + tail;
    DigitsWithZeros(z, n);
    Regroup(w, sign, z, Show(n), tail);
    SignedBody(x, w, sign + body, sign, body);
    DigitRun(body, d, tail);
    ReadsNumber(x, body, sign == "-", d, n);
  }

  lemma ReadsNumber(x: string, body: string, negative: bool, d: string, n: nat)
    requires NumberBody(x) == body && Negative(x) == negative
    requires |d| > 0 && AllDigits(d) && ParseDigits(d) == n
    requires DigitPrefixLength(body) == |d| && body[..|d|] == d
    ensures ParseInt(x) == Some(if negative then -(n as int) else n as int)
  {
    BodyValue(body, negative, d);
  }

  /** Leading zeros in front of a rendering leave its value. */
  lemma DigitsWithZeros(z: string, n: nat)
    requires forall i :: 0 <= i < |z| ==> z[i] == '0'
    ensures AllDigits(z + Show(n)) && ParseDigits(z + Show(n)) == n
  {
    LeadingZeros(z, Show(n));
    ParseShow(n);
  }

  lemma Regroup<T>(a: seq<T>, b: seq<T>, c: seq<T>, d: seq<T>, e: seq<T>)
    ensures a + b + c + d + e == a + (b + ((c + d) + e))
  {
  }

  /** After white space and an optional sign, the body is what `parseInt` reads digits from. */
  lemma SignedBody(x: string, w: string, rest: string, sign: string, body: string)
    requires forall i :: 0 <= i < |w| ==> IsSpace(w[i])
    requires sign == "" || sign == "-" || sign == "+"
    requires |body| > 0 && IsDigit(body[0])
    requires rest == sign + body && x == w + rest
    ensures NumberBody(x) == body
    ensures Negative(x) <==> sign == "-"
  {
    SignThenBody(rest, sign, body);
    TrimStartSkips(w, rest);
    assert TrimStart(x) == rest;
  }

  lemma SignThenBody(rest: string, sign: string, body: string)
    requires sign == "" || sign == "-" || sign == "+"
    requires |body| > 0 && IsDigit(body[0])
    requires rest == sign + body
    ensures |rest| > 0 && !IsSpace(rest[0])
    ensures rest[0] == '-' <==> sign == "-"
    ensures (rest[0] == '-' || rest[0] == '+') <==> sign != ""
    ensures sign != "" ==> rest[1..] == body
  {
    if sign != "" {
      assert rest[0] == sign[0];
      assert rest[1..] == body;
    } else {
      assert rest == body;
    }
  }

  /** The value `parseInt` gives once its digits are known. */
  lemma BodyValue(body: string, negative: bool, d: string)
    requires |d| > 0 && AllDigits(d)
    requires DigitPrefixLength(body) == |d| && body[..|d|] == d
    ensures ReadDigits(body, negative) == Some(if negative then -(ParseDigits(d) as int) else ParseDigits(d) as int)
  {
  }

  lemma DigitRun(body: string, d: string, tail: string)
    requires body == d + tail && AllDigits(d)
    requires |tail| == 0 || !IsDigit(tail[0])
    ensures DigitPrefixLength(body) == |d| && body[..|d|] == d
  {
    DigitPrefixOf(d, tail);
    assert (d + tail)[..|d|] == d;
  }
}
