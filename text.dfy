/**
 * String primitives the source takes from Python: `in`, `find`, `startswith`,
 * `strip`, `split`, `join`, `lower`, `re.search` over ASCII digit classes and
 * `int(...)` / `str(...)` of decimal numbers.  Characters are ASCII only.
 */
module Text {
  import opened Wrappers

  /** `c.isdigit()` / regex `\d`, restricted to ASCII. */
  predicate IsDigit(c: char) { '0' <= c <= '9' }

  predicate AllDigits(s: string) { forall i :: 0 <= i < |s| ==> IsDigit(s[i]) }

  function LowerChar(c: char): char {
    if 'A' <= c <= 'Z' then (c as int + 32) as char else c
  }

  /** `s.lower()` on ASCII letters. */
  function Lower(s: string): string {
    seq(|s|, i requires 0 <= i < |s| => LowerChar(s[i]))
  }

  predicate StartsWith(s: string, prefix: string) {
    |prefix| <= |s| && s[..|prefix|] == prefix
  }

  predicate EndsWith(s: string, suffix: string) {
    |suffix| <= |s| && s[|s| - |suffix|..] == suffix
  }

  lemma ConcatEnds(a: string, b: string)
    ensures StartsWith(a + b, a) && EndsWith(a + b, b)
  {
    assert (a + b)[..|a|] == a;
    assert (a + b)[|a + b| - |b|..] == b;
  }

  /** `needle` occurs in `hay` starting at index `i`. */
  predicate OccursAt(hay: string, needle: string, i: int) {
    0 <= i && i + |needle| <= |hay| && hay[i..i + |needle|] == needle
  }

  /** The first occurrence of `needle` in `hay` at or after index `i`. */
  function IndexFrom(hay: string, needle: string, i: nat): (r: Option<nat>)
    ensures r.Some? ==> i <= r.value && OccursAt(hay, needle, r.value)
    ensures r.Some? ==> forall j :: i <= j < r.value ==> !OccursAt(hay, needle, j)
    ensures r.None? ==> forall j :: i <= j ==> !OccursAt(hay, needle, j)
    decreases |hay| - i
  {
    if i + |needle| > |hay| then None
    else if OccursAt(hay, needle, i) then Some(i)
    else IndexFrom(hay, needle, i + 1)
  }

  /** `hay.find(needle)`, as an option: the index of the first occurrence. */
  function IndexOf(hay: string, needle: string): (r: Option<nat>)
    ensures r.Some? ==> OccursAt(hay, needle, r.value)
    ensures r.Some? ==> forall j :: 0 <= j < r.value ==> !OccursAt(hay, needle, j)
    ensures r.None? ==> forall j :: !OccursAt(hay, needle, j)
  {
    IndexFrom(hay, needle, 0)
  }

  /** Python's `needle in hay`. */
  predicate Contains(hay: string, needle: string) {
    IndexOf(hay, needle).Some?
  }

  lemma ContainsIff(hay: string, needle: string)
    ensures Contains(hay, needle) <==> exists i :: OccursAt(hay, needle, i)
  {
    if Contains(hay, needle) {
      assert OccursAt(hay, needle, IndexOf(hay, needle).value);
    }
  }

  /** A prefix of `hay` contains everything it contains. */
  lemma ContainsPrefix(hay: string, k: nat, needle: string)
    requires k <= |hay| && Contains(hay[..k], needle)
    ensures Contains(hay, needle)
  {
    var i := IndexOf(hay[..k], needle).value;
    assert hay[..k][i..i + |needle|] == hay[i..i + |needle|];
    assert OccursAt(hay, needle, i);
  }

  /** The text before the first occurrence of `needle` does not contain it. */
  lemma BeforeFirst(hay: string, needle: string)
    requires |needle| > 0 && Contains(hay, needle)
    ensures !Contains(hay[..IndexOf(hay, needle).value], needle)
  {
    var q := IndexOf(hay, needle).value;
    if Contains(hay[..q], needle) {
      var j := IndexOf(hay[..q], needle).value;
      assert hay[..q][j..j + |needle|] == hay[j..j + |needle|];
      assert OccursAt(hay, needle, j);
    }
  }

  /** `s.lstrip(chars)`. */
  function StripLeft(s: string, chars: set<char>): (r: string)
    ensures |r| <= |s| && r == s[|s| - |r|..]
    ensures r != [] ==> r[0] !in chars
    ensures forall i :: 0 <= i < |s| - |r| ==> s[i] in chars
  {
    if s != [] && s[0] in chars then StripLeft(s[1..], chars) else s
  }

  /** `s.rstrip(chars)`. */
  function StripRight(s: string, chars: set<char>): (r: string)
    ensures |r| <= |s| && r == s[..|r|]
    ensures r != [] ==> r[|r| - 1] !in chars
    ensures forall i :: |r| <= i < |s| ==> s[i] in chars
  {
    if s != [] && s[|s| - 1] in chars then StripRight(s[..|s| - 1], chars) else s
  }

  /** `s.strip(chars)`. */
  function Strip(s: string, chars: set<char>): string {
    StripRight(StripLeft(s, chars), chars)
  }

  /** Stripping removes exactly the padding around a text that neither starts nor ends with a stripped character. */
  lemma StripPadded(a: string, x: string, b: string, chars: set<char>)
    requires forall i :: 0 <= i < |a| ==> a[i] in chars
    requires forall i :: 0 <= i < |b| ==> b[i] in chars
    requires x != [] && x[0] !in chars && x[|x| - 1] !in chars
    ensures Strip(a + x + b, chars) == x
  {
    assert a + x + b == a + (x + b);
    StripLeftPadded(a, x + b, chars);
    StripRightPadded(x, b, chars);
  }

  lemma {:induction false} StripLeftPadded(a: string, y: string, chars: set<char>)
    requires forall i :: 0 <= i < |a| ==> a[i] in chars
    requires y != [] && y[0] !in chars
    ensures StripLeft(a + y, chars) == y
  {
    if a == [] {
      assert a + y == y;
    } else {
      assert (a + y)[0] == a[0];
      assert (a + y)[1..] == a[1..] + y;
      StripLeftPadded(a[1..], y, chars);
    }
  }

  lemma {:induction false} StripRightPadded(y: string, b: string, chars: set<char>)
    requires forall i :: 0 <= i < |b| ==> b[i] in chars
    requires y != [] && y[|y| - 1] !in chars
    ensures StripRight(y + b, chars) == y
  {
    if b == [] {
      assert y + b == y;
    } else {
      var c := b[..|b| - 1];
      assert (y + b)[|y + b| - 1] == b[|b| - 1];
      assert (y + b)[..|y + b| - 1] == y + c;
      StripRightPadded(y, c, chars);
    }
  }

  /** The characters `str.strip()` removes when called without arguments (ASCII subset). */
  const Whitespace: set<char> := {' ', '\t', '\n', '\r', '\U{0B}', '\U{0C}', '\U{1C}', '\U{1D}', '\U{1E}', '\U{1F}'}

  /** `s.split(sep)` for a one-character separator: never empty, no piece holds `sep`. */
  function Split(s: string, sep: char): (r: seq<string>)
    ensures |r| >= 1
    ensures forall k :: 0 <= k < |r| ==> sep !in r[k]
  {
    if s == [] then [[]]
    else
      var rest := Split(s[1..], sep);
      if s[0] == sep then [[]] + rest else [[s[0]] + rest[0]] + rest[1..]
  }

  /** `sep.join(parts)`. */
  function Join(parts: seq<string>, sep: char): string {
    if parts == [] then []
    else if |parts| == 1 then parts[0]
    else parts[0] + [sep] + Join(parts[1..], sep)
  }

  /** Joining the pieces of a split gives back the string. */
  lemma {:induction false} JoinSplit(s: string, sep: char)
    ensures Join(Split(s, sep), sep) == s
  {
    if s != [] {
      JoinSplit(s[1..], sep);
      var rest := Split(s[1..], sep);
      if s[0] != sep {
        if |rest| > 1 {
          assert Join(rest, sep) == rest[0] + [sep] + Join(rest[1..], sep);
        }
      }
    }
  }

  /** Splitting a text whose leading piece holds no separator. */
  lemma {:induction false} SplitPrefix(p: string, s: string, sep: char)
    requires sep !in p
    ensures Split(p + s, sep) == [p + Split(s, sep)[0]] + Split(s, sep)[1..]
  {
    if p == [] {
      var r := Split(s, sep);
      assert p + s == s && p + r[0] == r[0];
      assert r == [r[0]] + r[1..];
    } else {
      SplitPrefix(p[1..], s, sep);
      assert (p + s)[1..] == p[1..] + s;
      assert (p + s)[0] == p[0] && p[0] != sep;
      assert [p[0]] + (p[1..] + Split(s, sep)[0]) == p + Split(s, sep)[0];
    }
  }

  /** Splitting a join of separator-free pieces gives back the pieces. */
  lemma {:induction false} SplitJoin(parts: seq<string>, sep: char)
    requires |parts| >= 1
    requires forall k :: 0 <= k < |parts| ==> sep !in parts[k]
    ensures Split(Join(parts, sep), sep) == parts
  {
    if |parts| == 1 {
      SplitPrefix(parts[0], [], sep);
      assert parts[0] + [] == parts[0];
      assert Split([], sep) == [[]];
    } else {
      SplitJoin(parts[1..], sep);
      var tail := [sep] + Join(parts[1..], sep);
      assert Join(parts, sep) == parts[0] + tail;
      SplitPrefix(parts[0], tail, sep);
      assert tail[1..] == Join(parts[1..], sep);
      assert tail[0] == sep;
      assert Split(tail, sep) == [[]] + Split(tail[1..], sep);
      assert Split(tail, sep) == [[]] + parts[1..];
      assert parts[0] + Split(tail, sep)[0] == parts[0];
      assert parts == [parts[0]] + parts[1..];
    }
  }

  /** Every digit of `s`, in order (`re.sub(r'[^\d]', '', s)`). */
  function DigitsOf(s: string): (r: string)
    ensures AllDigits(r) && |r| <= |s|
  {
    if s == [] then []
    else if IsDigit(s[0]) then [s[0]] + DigitsOf(s[1..])
    else DigitsOf(s[1..])
  }

  /** The value of a run of decimal digits (`int(s)` for a non-empty all-digit `s`). */
  function DigitsValue(s: string): nat
    requires AllDigits(s)
  {
    if s == [] then 0 else DigitsValue(s[..|s| - 1]) * 10 + (s[|s| - 1] as int - '0' as int)
  }

  function DigitChar(d: nat): (c: char)
    requires d < 10
    ensures IsDigit(c) && c as int - '0' as int == d
  {
    ('0' as int + d) as char
  }

  /** `str(n)` for a natural number. */
  function NatToString(n: nat): (r: string)
    ensures r != [] && AllDigits(r) && DigitsValue(r) == n
  {
    if n < 10 then [DigitChar(n)]
    else
      var r := NatToString(n / 10) + [DigitChar(n % 10)];
      assert r[..|r| - 1] == NatToString(n / 10);
      r
  }

  /** `str(i)` for any integer. */
  function IntToString(i: int): string {
    if i < 0 then "-" + NatToString(-i) else NatToString(i)
  }

  /**
   * What `int(s)` and `float(s)` read: the text without surrounding
   * whitespace, split into whether a leading `-` makes it negative and the
   * rest after one leading sign.
   */
  function NumberBody(s: string): (bool, string) {
    var t := Strip(s, Whitespace);
    if t != [] && t[0] in {'-', '+'} then (t[0] == '-', t[1..]) else (false, t)
  }

  /** `int(s)` of a text: `None` where Python raises (underscores are not read). */
  function IntText(s: string): Option<int> {
    var (negative, body) := NumberBody(s);
    if AllDigits(body) then
      match ParseInt(body)
      case None => None
      case Some(n) => Some(if negative then -(n as int) else n as int)
    else None
  }

  /** `float(s)` of a plain decimal text: `None` where Python raises (exponents, `inf` and `nan` are not read). */
  function FloatText(s: string): Option<real> {
    var (negative, body) := NumberBody(s);
    if forall k :: 0 <= k < |body| ==> DigitOrDot(body[k]) then
      match ParseDecimal(body)
      case None => None
      case Some(x) => Some(if negative then -x else x)
    else None
  }

  /** The text `int` and `float` read from a padded `str(n)`: the sign of `n` and the digits of its magnitude. */
  lemma RenderedBody(a: string, n: int, b: string)
    requires forall i :: 0 <= i < |a| ==> a[i] in Whitespace
    requires forall i :: 0 <= i < |b| ==> b[i] in Whitespace
    ensures NumberBody(a + IntToString(n) + b) == (n < 0, NatToString(if n < 0 then -n else n))
  {
    var d := NatToString(if n < 0 then -n else n);
    var t := IntToString(n);
    assert IsDigit(d[0]) && IsDigit(d[|d| - 1]);
    assert t[|t| - 1] == d[|d| - 1];
    assert t[0] == '-' || t[0] == d[0];
    StripPadded(a, t, b, Whitespace);
    if n < 0 {
      assert t[1..] == d;
    }
  }

  /** `int(str(n))` is `n`, whatever whitespace surrounds the text. */
  lemma IntTextReadsRendered(a: string, n: int, b: string)
    requires forall i :: 0 <= i < |a| ==> a[i] in Whitespace
    requires forall i :: 0 <= i < |b| ==> b[i] in Whitespace
    ensures IntText(a + IntToString(n) + b) == Some(n)
  {
    RenderedBody(a, n, b);
  }

  /** `float(str(n))` is `n`, whatever whitespace surrounds the text. */
  lemma FloatTextReadsRendered(a: string, n: int, b: string)
    requires forall i :: 0 <= i < |a| ==> a[i] in Whitespace
    requires forall i :: 0 <= i < |b| ==> b[i] in Whitespace
    ensures FloatText(a + IntToString(n) + b) == Some(n as real)
  {
    var m: nat := if n < 0 then -n else n;
    var d := NatToString(m);
    var x := m as real;
    assert DigitsValue(d) == m;
    DecimalOfDigits(d);
    assert ParseDecimal(d) == Some(x);
    RenderedBody(a, n, b);
    FloatTextOfBody(a + IntToString(n) + b, n < 0, d, x);
    assert (if n < 0 then -x else x) == n as real;
  }

  /** The signs `int` and `float` accept before the digits: none, `-` or `+`. */
  predicate Sign(sign: string) { sign == [] || sign == "-" || sign == "+" }

  /** The text `float` reads from a padded, signed plain decimal `d`: whether it is negative, and `d`. */
  lemma DecimalBody(a: string, sign: string, d: string, b: string)
    requires forall i :: 0 <= i < |a| ==> a[i] in Whitespace
    requires forall i :: 0 <= i < |b| ==> b[i] in Whitespace
    requires Sign(sign) && d != [] && DigitOrDot(d[0]) && DigitOrDot(d[|d| - 1])
    ensures NumberBody(a + sign + d + b) == (sign == "-", d)
  {
    var t := sign + d;
    assert a + sign + d + b == a + t + b;
    assert t[|t| - 1] == d[|d| - 1];
    assert t[0] == '-' || t[0] == '+' || t[0] == d[0];
    StripPadded(a, t, b, Whitespace);
    if sign == [] {
      assert t == d && d[0] != '-' && d[0] != '+';
    } else {
      assert t[1..] == d;
    }
  }

  /** `float` of a padded, signed decimal `w.f`: its value, negated after a `-`. */
  lemma FloatTextReadsDecimal(a: string, sign: string, w: string, f: string, b: string)
    requires forall i :: 0 <= i < |a| ==> a[i] in Whitespace
    requires forall i :: 0 <= i < |b| ==> b[i] in Whitespace
    requires Sign(sign) && AllDigits(w) && AllDigits(f) && w + f != []
    ensures sign != "-" ==> FloatText(a + sign + (w + "." + f) + b) == Some(Decimal(w, f))
    ensures sign == "-" ==>
      FloatText(a + sign + (w + "." + f) + b).Some? && FloatText(a + sign + (w + "." + f) + b).value == -Decimal(w, f)
  {
    assert w != [] || f != [];
    DecimalOfParts(w, f);
    FloatTextOfDecimal(a, sign, w + "." + f, b, Decimal(w, f));
  }

  /** `float` of a padded, signed plain decimal `d`: the value of `d`, negated after a `-`. */
  lemma FloatTextOfDecimal(a: string, sign: string, d: string, b: string, x: real)
    requires forall i :: 0 <= i < |a| ==> a[i] in Whitespace
    requires forall i :: 0 <= i < |b| ==> b[i] in Whitespace
    requires Sign(sign) && d != [] && forall k :: 0 <= k < |d| ==> DigitOrDot(d[k])
    requires ParseDecimal(d) == Some(x)
    ensures sign != "-" ==> FloatText(a + sign + d + b) == Some(x)
    ensures sign == "-" ==> FloatText(a + sign + d + b) == Some(-x)
  {
    DecimalBody(a, sign, d, b);
    FloatTextOfBody(a + sign + d + b, sign == "-", d, x);
  }

  /** `float` of a text whose signed body is a plain decimal: that decimal, with the sign. */
  lemma FloatTextOfBody(s: string, negative: bool, body: string, x: real)
    requires NumberBody(s) == (negative, body)
    requires forall k :: 0 <= k < |body| ==> DigitOrDot(body[k])
    requires ParseDecimal(body) == Some(x)
    ensures FloatText(s) == Some(if negative then -x else x)
  {
  }

  /** `float` of a non-empty run of digits: its value. */
  lemma DecimalOfDigits(d: string)
    requires AllDigits(d) && d != []
    ensures forall k :: 0 <= k < |d| ==> DigitOrDot(d[k])
    ensures ParseDecimal(d) == Some(DigitsValue(d) as real)
  {
    NoDotsInDigits(d);
    DigitsOfDigits(d);
  }

  /** `int(x)` of a float: the integer part, rounded toward zero. */
  function Truncate(x: real): (r: int)
    ensures x >= 0.0 ==> r >= 0 && r as real <= x < r as real + 1.0
    ensures x < 0.0 ==> r <= 0 && r as real - 1.0 < x <= r as real
  {
    if x >= 0.0 then x.Floor else -((-x).Floor)
  }

  /** `int(s)` of a text holding only ASCII digits: `None` where Python raises. */
  function ParseInt(s: string): (r: Option<nat>)
    requires AllDigits(s)
    ensures r.None? <==> s == []
    ensures r.Some? ==> r.value == DigitsValue(s)
  {
    if s == [] then None else Some(DigitsValue(s))
  }

  function Pow10(n: nat): (r: nat)
    ensures r >= 1
  {
    if n == 0 then 1 else 10 * Pow10(n - 1)
  }

  predicate DigitOrDot(c: char) { IsDigit(c) || c == '.' }

  /** A dot at index `k` of `s`. */
  predicate DotAt(s: string, k: int) { 0 <= k < |s| && s[k] == '.' }

  /** Every digit and every `.` of `s`, in order (`re.sub(r'[^\d.]', '', s)`). */
  function DigitsAndDotsOf(s: string): (r: string)
    ensures forall i :: 0 <= i < |r| ==> DigitOrDot(r[i])
    ensures DigitsOf(r) == DigitsOf(s)
  {
    if s == [] then []
    else if DigitOrDot(s[0]) then [s[0]] + DigitsAndDotsOf(s[1..])
    else DigitsAndDotsOf(s[1..])
  }

  function CountOf(s: string, c: char): nat {
    if s == [] then 0 else (if s[0] == c then 1 else 0) + CountOf(s[1..], c)
  }

  lemma {:induction false} NoDotsAllDigits(s: string)
    requires forall i :: 0 <= i < |s| ==> DigitOrDot(s[i])
    requires CountOf(s, '.') == 0
    ensures AllDigits(s) && DigitsOf(s) == s
  {
    if s != [] { NoDotsAllDigits(s[1..]); }
  }

  lemma {:induction false} DotSplit(s: string, k: nat)
    requires forall i :: 0 <= i < |s| ==> DigitOrDot(s[i])
    requires CountOf(s, '.') == 1 && k < |s| && s[k] == '.'
    requires forall j :: 0 <= j < k ==> s[j] != '.'
    ensures AllDigits(s[..k]) && AllDigits(s[k + 1..])
    ensures DigitsOf(s) == s[..k] + s[k + 1..]
    decreases k
  {
    var tail := s[1..];
    assert forall i :: 0 <= i < |tail| ==> DigitOrDot(tail[i]) by {
      forall i | 0 <= i < |tail| ensures DigitOrDot(tail[i]) { assert tail[i] == s[i + 1]; }
    }
    if k == 0 {
      assert CountOf(tail, '.') == 0;
      NoDotsAllDigits(tail);
      assert DigitsOf(s) == DigitsOf(tail);
      assert s[..0] == [] && s[1..] == tail;
    } else {
      assert IsDigit(s[0]) && CountOf(tail, '.') == 1;
      assert forall j :: 0 <= j < k - 1 ==> tail[j] != '.' by {
        forall j | 0 <= j < k - 1 ensures tail[j] != '.' { assert tail[j] == s[j + 1]; }
      }
      DotSplit(tail, k - 1);
      DigitThenSplit(s, k);
    }
  }

  /** The step of `DotSplit`: a leading digit joins the whole part in front of the dot. */
  lemma DigitThenSplit(s: string, k: nat)
    requires 0 < k < |s| && IsDigit(s[0])
    requires AllDigits(s[1..][..k - 1]) && AllDigits(s[1..][k..])
    requires DigitsOf(s[1..]) == s[1..][..k - 1] + s[1..][k..]
    ensures AllDigits(s[..k]) && AllDigits(s[k + 1..])
    ensures DigitsOf(s) == s[..k] + s[k + 1..]
  {
    var tail := s[1..];
    assert s[..k] == [s[0]] + tail[..k - 1];
    assert s[k + 1..] == tail[k..];
    assert DigitsOf(s) == [s[0]] + DigitsOf(tail);
  }

  /**
   * `float(s)` for a text of digits and dots: Python accepts it exactly when it
   * holds at most one dot and at least one digit; the value is exact here.
   */
  function ParseDecimal(s: string): (r: Option<real>)
    requires forall i :: 0 <= i < |s| ==> DigitOrDot(s[i])
    ensures r.None? <==> DigitsOf(s) == [] || CountOf(s, '.') >= 2
    ensures r.Some? ==> r.value >= 0.0
    ensures r.Some? && CountOf(s, '.') == 0 ==> AllDigits(s) && r.value == DigitsValue(s) as real
    ensures forall k {:trigger DotAt(s, k)} :: DotAt(s, k) && CountOf(s, '.') == 1 ==>
      && AllDigits(s[..k]) && AllDigits(s[k + 1..])
      && r == (if |s| == 1 then None else Some(Decimal(s[..k], s[k + 1..])))
  {
    if CountOf(s, '.') >= 2 then None
    else if CountOf(s, '.') == 0 then
      NoDotsAllDigits(s);
      if s == [] then None else Some(DigitsValue(s) as real)
    else
      OneDot(s);
      var k := IndexOf(s, ".").value;
      DotIsUnique(s, k);
      var whole, frac := s[..k], s[k + 1..];
      if whole == [] && frac == [] then None
      else
        DecimalBounds(whole, frac);
        Some(Decimal(whole, frac))
  }

  /** The value of a decimal written as whole digits, a dot and fraction digits. */
  function Decimal(whole: string, frac: string): real
    requires AllDigits(whole) && AllDigits(frac)
  {
    DigitsValue(whole) as real + Fraction(frac)
  }

  /** The value of the digits after a dot: `0.d1d2...` is `(d1 + 0.d2...) / 10`. */
  function Fraction(frac: string): real
    requires AllDigits(frac)
  {
    if frac == [] then 0.0 else ((frac[0] as int - '0' as int) as real + Fraction(frac[1..])) / 10.0
  }

  /** A decimal lies between its whole part and the next integer. */
  lemma DecimalBounds(whole: string, frac: string)
    requires AllDigits(whole) && AllDigits(frac)
    ensures DigitsValue(whole) as real <= Decimal(whole, frac) < DigitsValue(whole) as real + 1.0
  {
    FractionBelowOne(frac);
  }

  /** Fraction digits stand for a value in [0, 1). */
  lemma {:induction false} FractionBelowOne(frac: string)
    requires AllDigits(frac)
    ensures 0.0 <= Fraction(frac) < 1.0
    decreases |frac|
  {
    if frac != [] {
      FractionBelowOne(frac[1..]);
    }
  }

  /** With digits on both sides of the dot at `k`, no other index holds a dot. */
  lemma DotIsUnique(s: string, k: nat)
    requires k < |s| && s[k] == '.' && AllDigits(s[..k]) && AllDigits(s[k + 1..])
    ensures forall j :: 0 <= j < |s| && s[j] == '.' ==> j == k
  {
    forall j | 0 <= j < |s| && j != k
      ensures s[j] != '.'
    {
      if j < k {
        assert s[j] == s[..k][j];
      } else {
        assert s[j] == s[k + 1..][j - k - 1];
      }
    }
  }

  /** `float(w + "." + f)` for runs of digits `w` and `f`: their decimal, unless both are empty. */
  lemma DecimalOfParts(w: string, f: string)
    requires AllDigits(w) && AllDigits(f)
    ensures forall i :: 0 <= i < |w + "." + f| ==> DigitOrDot((w + "." + f)[i])
    ensures ParseDecimal(w + "." + f) == if w == [] && f == [] then None else Some(Decimal(w, f))
  {
    var s := w + "." + f;
    assert forall i :: 0 <= i < |s| ==> DigitOrDot(s[i]) by {
      forall i | 0 <= i < |s| ensures DigitOrDot(s[i]) {
        if i < |w| { assert s[i] == w[i]; } else if i > |w| { assert s[i] == f[i - |w| - 1]; }
      }
    }
    NoDotsInDigits(w);
    NoDotsInDigits(f);
    CountOfConcat(w + ".", f, '.');
    CountOfConcat(w, ".", '.');
    assert s[..|w|] == w && s[|w| + 1..] == f && DotAt(s, |w|);
  }

  lemma {:induction false} CountOfConcat(a: string, b: string, c: char)
    ensures CountOf(a + b, c) == CountOf(a, c) + CountOf(b, c)
    decreases |a|
  {
    if a != [] {
      assert (a + b)[1..] == a[1..] + b;
      CountOfConcat(a[1..], b, c);
    } else {
      assert a + b == b;
    }
  }

  lemma {:induction false} NoDotsInDigits(s: string)
    requires AllDigits(s)
    ensures CountOf(s, '.') == 0
    decreases |s|
  {
    if s != [] { NoDotsInDigits(s[1..]); }
  }

  /** A text of digits and one dot: the digits before and after the dot. */
  lemma OneDot(s: string)
    requires forall i :: 0 <= i < |s| ==> DigitOrDot(s[i])
    requires CountOf(s, '.') == 1
    ensures IndexOf(s, ".").Some?
    ensures var k := IndexOf(s, ".").value;
      && k < |s|
      && AllDigits(s[..k]) && AllDigits(s[k + 1..])
      && DigitsOf(s) == s[..k] + s[k + 1..]
  {
    DotFound(s);
    var k := IndexOf(s, ".").value;
    assert forall j :: 0 <= j < k ==> s[j] != '.' by {
      forall j | 0 <= j < k ensures s[j] != '.' { assert !OccursAt(s, ".", j); assert s[j..j + 1] == [s[j]]; }
    }
    assert s[k..k + 1] == ".";
    DotSplit(s, k);
  }

  lemma DotFound(s: string)
    requires CountOf(s, '.') > 0
    ensures IndexOf(s, ".").Some?
  {
    if IndexOf(s, ".").None? {
      forall j | 0 <= j < |s| ensures s[j] != '.' { assert !OccursAt(s, ".", j); assert s[j..j + 1] == [s[j]]; }
      NoDotCount(s);
    }
  }

  lemma {:induction false} NoDotCount(s: string)
    requires forall j :: 0 <= j < |s| ==> s[j] != '.'
    ensures CountOf(s, '.') == 0
  {
    if s != [] { NoDotCount(s[1..]); }
  }

  /** Length of the longest prefix of `s[from..]` whose characters satisfy `p`. */
  function RunLength(s: string, from: nat, p: char -> bool): (n: nat)
    requires from <= |s|
    ensures from + n <= |s|
    ensures forall j :: from <= j < from + n ==> p(s[j])
    ensures from + n < |s| ==> !p(s[from + n])
    decreases |s| - from
  {
    if from == |s| || !p(s[from]) then 0 else 1 + RunLength(s, from + 1, p)
  }

  /** Four ASCII digits start at index `i` (regex `\d{4}`). */
  predicate FourDigitsAt(s: string, i: int) {
    0 <= i && i + 4 <= |s| && AllDigits(s[i..i + 4])
  }

  /** The first index at or after `i` where four digits start. */
  function FourDigitsFrom(s: string, i: nat): (r: Option<nat>)
    ensures r.Some? ==> i <= r.value && FourDigitsAt(s, r.value)
    ensures r.Some? ==> forall j :: i <= j < r.value ==> !FourDigitsAt(s, j)
    ensures r.None? ==> forall j :: i <= j ==> !FourDigitsAt(s, j)
    decreases |s| - i
  {
    if i + 4 > |s| then None
    else if FourDigitsAt(s, i) then Some(i)
    else FourDigitsFrom(s, i + 1)
  }

  /** Four digits start at `i` and at no earlier position. */
  predicate FirstFourDigitsAt(s: string, i: int) {
    FourDigitsAt(s, i) && forall j :: 0 <= j < i ==> !FourDigitsAt(s, j)
  }

  /** `re.search(r'(\d{4})', s)`: the value of the first run of four digits. */
  function FirstFourDigits(s: string): (r: Option<nat>)
    ensures r.Some? ==> r.value < 10000
    ensures r.Some? ==> exists i :: FirstFourDigitsAt(s, i) && r.value == DigitsValue(s[i..i + 4])
    ensures r.None? <==> forall i :: !FourDigitsAt(s, i)
  {
    match FourDigitsFrom(s, 0)
    case None => None
    case Some(i) => FourDigitsBound(s[i..i + 4]); assert FirstFourDigitsAt(s, i); Some(DigitsValue(s[i..i + 4]))
  }

  /** `str(y)` of a four-digit year has four characters. */
  lemma FourDigitYear(y: nat)
    requires 1000 <= y < 10000
    ensures |NatToString(y)| == 4
  {
    var a, b, c := y / 10, y / 100, y / 1000;
    assert 100 <= a < 1000 && b == a / 10 && 10 <= b < 100 && c == b / 10 && 1 <= c < 10;
    assert NatToString(y) == NatToString(a) + [DigitChar(y % 10)];
    assert NatToString(a) == NatToString(b) + [DigitChar(a % 10)];
    assert NatToString(b) == NatToString(c) + [DigitChar(b % 10)];
  }

  /** Four digits preceded by no digit are the first run `re.search` finds. */
  lemma {:induction false} FirstFourDigitsAfter(pre: string, d: string, rest: string)
    requires |d| == 4 && AllDigits(d)
    requires forall k :: 0 <= k < |pre| ==> !IsDigit(pre[k])
    ensures FirstFourDigits(pre + d + rest) == Some(DigitsValue(d))
  {
    var s := pre + d + rest;
    assert s[|pre|..|pre| + 4] == d;
    assert FourDigitsAt(s, |pre|);
    forall j | 0 <= j < |pre|
      ensures !FourDigitsAt(s, j)
    {
      assert s[j..j + 4][0] == pre[j];
    }
    var r := FirstFourDigits(s);
    assert r.Some?;
    var i :| FirstFourDigitsAt(s, i) && r.value == DigitsValue(s[i..i + 4]);
    assert i == |pre|;
  }

  lemma FourDigitsBound(d: string)
    requires |d| == 4 && AllDigits(d)
    ensures DigitsValue(d) < 10000
  {
    var a, b, c := d[..3], d[..2], d[..1];
    assert a[..2] == b && b[..1] == c && c[..0] == [];
    assert DigitsValue(c) < 10;
    assert DigitsValue(b) < 100;
    assert DigitsValue(a) < 1000;
  }

  /** `s.split(sep)[-1]`: the text after the last `sep`, or all of `s`. */
  function AfterLast(s: string, sep: char): (r: string)
    ensures sep !in r
    ensures |r| <= |s| && r == s[|s| - |r|..]
    ensures |r| < |s| ==> s[|s| - |r| - 1] == sep
  {
    if s == [] then []
    else if s[|s| - 1] == sep then []
    else AfterLast(s[..|s| - 1], sep) + [s[|s| - 1]]
  }

  /** `s.replace(a, b)` for single characters. */
  function ReplaceChar(s: string, a: char, b: char): (r: string)
    ensures |r| == |s|
    ensures forall i :: 0 <= i < |s| ==> r[i] == (if s[i] == a then b else s[i])
  {
    seq(|s|, i requires 0 <= i < |s| => if s[i] == a then b else s[i])
  }

  lemma {:induction false} DigitsOfConcat(a: string, b: string)
    ensures DigitsOf(a + b) == DigitsOf(a) + DigitsOf(b)
    decreases |a|
  {
    if a != [] {
      assert (a + b)[1..] == a[1..] + b;
      DigitsOfConcat(a[1..], b);
    } else {
      assert a + b == b;
    }
  }

  lemma {:induction false} DigitsOfDigits(s: string)
    requires AllDigits(s)
    ensures DigitsOf(s) == s
    decreases |s|
  {
    if s != [] { DigitsOfDigits(s[1..]); }
  }

  lemma {:induction false} DigitsAndDotsOfConcat(a: string, b: string)
    ensures DigitsAndDotsOf(a + b) == DigitsAndDotsOf(a) + DigitsAndDotsOf(b)
    decreases |a|
  {
    if a != [] {
      assert (a + b)[1..] == a[1..] + b;
      DigitsAndDotsOfConcat(a[1..], b);
    } else {
      assert a + b == b;
    }
  }

  lemma {:induction false} DigitsAndDotsOfDigits(s: string)
    requires AllDigits(s)
    ensures DigitsAndDotsOf(s) == s
    decreases |s|
  {
    if s != [] { DigitsAndDotsOfDigits(s[1..]); }
  }

  /** Without a dot, filtering to digits and dots is filtering to digits. */
  lemma {:induction false} NoDotsDigitsOnly(s: string)
    requires CountOf(s, '.') == 0
    ensures DigitsAndDotsOf(s) == DigitsOf(s)
    decreases |s|
  {
    if s != [] { NoDotsDigitsOnly(s[1..]); }
  }

  /** Filtering to digits and dots keeps every dot. */
  lemma {:induction false} DotsKept(s: string)
    ensures CountOf(DigitsAndDotsOf(s), '.') == CountOf(s, '.')
    decreases |s|
  {
    if s != [] {
      DotsKept(s[1..]);
      if DigitOrDot(s[0]) {
        assert DigitsAndDotsOf(s)[1..] == DigitsAndDotsOf(s[1..]);
      }
    }
  }
}
