/**
 * Characters and strings as Python's `str` treats them: whitespace, ASCII
 * case, `strip`, `split`/`join` on one separator, and the conversions
 * between decimal text and numbers that `int()`, `float()` and `str()` do.
 */
module Text {
  import opened Wrappers

  /** Python's `str.isspace()`; the same set is what `\s` matches and `strip()` removes. */
  predicate IsSpace(c: char) {
    || ('\t' <= c <= '\r')
    || ('\U{1C}' <= c <= ' ')
    || c == '\U{85}' || c == '\U{A0}' || c == '\U{1680}'
    || ('\U{2000}' <= c <= '\U{200A}')
    || c == '\U{2028}' || c == '\U{2029}' || c == '\U{202F}' || c == '\U{205F}' || c == '\U{3000}'
  }

  /** An ASCII decimal digit (what `\d` matches in this model). */
  predicate IsDigit(c: char) {
    '0' <= c <= '9'
  }

  predicate IsAscii(c: char) {
    c < '\U{80}'
  }

  function LowerAscii(c: char): char {
    if 'A' <= c <= 'Z' then (c as int + 32) as char else c
  }

  function UpperAscii(c: char): char {
    if 'a' <= c <= 'z' then (c as int - 32) as char else c
  }

  /** `s.upper()` for the ASCII letters. */
  function Upper(s: string): (r: string)
    ensures |r| == |s|
    ensures forall i :: 0 <= i < |s| ==> r[i] == UpperAscii(s[i])
  {
    if s == [] then [] else [UpperAscii(s[0])] + Upper(s[1..])
  }

  /** Python's `sub in s`. */
  predicate Contains(s: string, sub: string) {
    exists i :: 0 <= i <= |s| && sub <= s[i..]
  }

  /** `s.lstrip()` */
  function LStrip(s: string): (r: string)
    ensures |r| <= |s| && r == s[|s| - |r|..]
    ensures r == [] || !IsSpace(r[0])
    ensures forall i :: 0 <= i < |s| - |r| ==> IsSpace(s[i])
  {
    if s != [] && IsSpace(s[0]) then LStrip(s[1..]) else s
  }

  /** `s.rstrip()` */
  function RStrip(s: string): (r: string)
    ensures |r| <= |s| && r == s[..|r|]
    ensures r == [] || !IsSpace(r[|r| - 1])
    ensures forall i :: |r| <= i < |s| ==> IsSpace(s[i])
  {
    if s != [] && IsSpace(s[|s| - 1]) then RStrip(s[..|s| - 1]) else s
  }

  /** `s.strip()` */
  function Strip(s: string): (r: string)
    ensures r == [] || (!IsSpace(r[0]) && !IsSpace(r[|r| - 1]))
  {
    RStrip(LStrip(s))
  }

  /** Index of the first `c` at or after `from` in `s`, as `s.find(c, from)` with -1 as None. */
  function Find(s: string, c: char, from: nat): (r: Option<nat>)
    decreases |s| - from
    ensures r.Some? ==> from <= r.value < |s| && s[r.value] == c
    ensures r.Some? ==> forall k :: from <= k < r.value ==> s[k] != c
    ensures r.None? ==> forall k :: from <= k < |s| ==> s[k] != c
  {
    if from >= |s| then None
    else if s[from] == c then Some(from)
    else Find(s, c, from + 1)
  }

  /** `s.split(sep)` for a one-character separator. */
  function Split(s: string, sep: char): (r: seq<string>)
    ensures |r| >= 1
    ensures forall k :: 0 <= k < |r| ==> sep !in r[k]
    decreases |s|
  {
    match Find(s, sep, 0)
    case None => [s]
    case Some(i) => [s[..i]] + Split(s[i + 1..], sep)
  }

  /** `sep.join(lines)` for a one-character separator. */
  function Join(lines: seq<string>, sep: char): string {
    if lines == [] then []
    else if |lines| == 1 then lines[0]
    else lines[0] + [sep] + Join(lines[1..], sep)
  }

  /** Splitting undoes joining when the pieces do not contain the separator. */
  lemma {:induction false} SplitJoin(lines: seq<string>, sep: char)
    requires |lines| >= 1
    requires forall k :: 0 <= k < |lines| ==> sep !in lines[k]
    ensures Split(Join(lines, sep), sep) == lines
  {
    var s := Join(lines, sep);
    if |lines| == 1 {
      assert Find(s, sep, 0).None?;
    } else {
      var rest := Join(lines[1..], sep);
      assert s == lines[0] + [sep] + rest;
      var i := |lines[0]|;
      assert s[i] == sep;
      assert forall k :: 0 <= k < i ==> s[k] == lines[0][k];
      assert Find(s, sep, 0) == Some(i);
      assert s[..i] == lines[0];
      assert s[i + 1..] == rest;
      SplitJoin(lines[1..], sep);
      assert [lines[0]] + lines[1..] == lines;
    }
  }

  /** The value of a run of ASCII digits, read most significant first. */
  function DigitsValue(s: string): nat
    requires forall k :: 0 <= k < |s| ==> IsDigit(s[k])
  {
    if s == [] then 0 else DigitsValue(s[..|s| - 1]) * 10 + DigitOf(s[|s| - 1])
  }

  function DigitOf(c: char): (d: nat)
    requires IsDigit(c)
    ensures d < 10
  {
    c as int - '0' as int
  }

  function Power10(n: nat): (r: nat)
    ensures r >= 1
  {
    if n == 0 then 1 else 10 * Power10(n - 1)
  }

  /**
   * Python's `float(s)` for a string made only of ASCII digits and dots:
   * it is a number exactly when it has at most one dot and at least one digit.
   */
  function ParseDecimal(s: string): (r: Option<real>)
    requires forall k :: 0 <= k < |s| ==> IsDigit(s[k]) || s[k] == '.'
    ensures r.Some? <==> (exists k :: 0 <= k < |s| && IsDigit(s[k])) && (forall j, k :: 0 <= j < k < |s| && s[j] == '.' ==> s[k] != '.')
    ensures r.Some? ==> r.value >= 0.0
  {
    match Find(s, '.', 0)
    case None =>
      if s == [] then None else Some(DigitsValue(s) as real)
    case Some(d) =>
      var whole, frac := s[..d], s[d + 1..];
      if Find(frac, '.', 0).Some? then
        assert s[d + 1 + Find(frac, '.', 0).value] == '.';
        None
      else if whole == [] && frac == [] then None
      else
        assert forall k :: 0 <= k < |frac| ==> frac[k] == s[d + 1 + k];
        assert whole != [] ==> IsDigit(s[0]);
        assert frac != [] ==> IsDigit(s[d + 1]);
        Some(DigitsValue(whole) as real + DigitsValue(frac) as real / Power10(|frac|) as real)
  }

  /** Appending digits shifts the value left by their count and adds theirs. */
  lemma {:induction false} DigitsValueAppend(a: string, b: string)
    requires forall k :: 0 <= k < |a| ==> IsDigit(a[k])
    requires forall k :: 0 <= k < |b| ==> IsDigit(b[k])
    ensures forall k :: 0 <= k < |a + b| ==> IsDigit((a + b)[k])
    ensures DigitsValue(a + b) == DigitsValue(a) * Power10(|b|) + DigitsValue(b)
  {
    if b != [] {
      var b' := b[..|b| - 1];
      DigitsValueAppend(a, b');
      assert (a + b)[..|a + b| - 1] == a + b' && (a + b)[|a + b| - 1] == b[|b| - 1];
      assert b[..|b| - 1] == b';
      ShiftDigit(DigitsValue(a), Power10(|b'|), DigitsValue(b'), DigitOf(b[|b| - 1]));
    } else {
      assert a + b == a;
    }
  }

  lemma ShiftDigit(x: nat, p: nat, y: nat, d: nat)
    ensures (x * p + y) * 10 + d == x * (10 * p) + (y * 10 + d)
  {
  }

  /** `float` of digits without a dot is their integer value. */
  lemma ParseDecimalOfDigits(s: string)
    requires s != [] && forall k :: 0 <= k < |s| ==> IsDigit(s[k])
    ensures ParseDecimal(s) == Some(DigitsValue(s) as real)
  {
  }

  /**
   * `float` of `whole.frac` with at least one digit: the integer the digits
   * spell without the dot, divided by ten to the number of decimals.
   */
  lemma ParseDecimalOfDotted(s: string, whole: string, frac: string)
    requires s == whole + "." + frac && whole + frac != []
    requires forall k :: 0 <= k < |whole| ==> IsDigit(whole[k])
    requires forall k :: 0 <= k < |frac| ==> IsDigit(frac[k])
    ensures forall k :: 0 <= k < |whole + frac| ==> IsDigit((whole + frac)[k])
    ensures ParseDecimal(s) == Some(DigitsValue(whole + frac) as real / Power10(|frac|) as real)
  {
    DigitsValueAppend(whole, frac);
    DottedParts(s, whole, frac);
    assert !(whole == [] && frac == []);
    var w, f, p := DigitsValue(whole), DigitsValue(frac), Power10(|frac|);
    assert ParseDecimal(s) == Some(w as real + f as real / p as real);
    ScaleFraction(w, f, p);
  }

  /** The first dot of `whole.frac` is the one after `whole`, and `frac` has none. */
  lemma DottedParts(s: string, whole: string, frac: string)
    requires s == whole + "." + frac
    requires forall k :: 0 <= k < |whole| ==> IsDigit(whole[k])
    requires forall k :: 0 <= k < |frac| ==> IsDigit(frac[k])
    ensures Find(s, '.', 0) == Some(|whole|)
    ensures s[..|whole|] == whole && s[|whole| + 1..] == frac
    ensures Find(frac, '.', 0).None?
  {
    assert s[|whole|] == '.';
    assert forall k :: 0 <= k < |whole| ==> s[k] == whole[k];
  }

  /** `w + f / p` is `(w * p + f) / p`. */
  lemma ScaleFraction(w: nat, f: nat, p: nat)
    requires p >= 1
    ensures w as real + f as real / p as real == (w * p + f) as real / p as real
  {
  }

  function DigitChar(d: nat): (c: char)
    requires d < 10
    ensures IsDigit(c)
  {
    ('0' as int + d) as char
  }

  /** Python's `str(n)` for a natural number. */
  function NatToString(n: nat): (r: string)
    ensures |r| >= 1
    ensures forall k :: 0 <= k < |r| ==> IsDigit(r[k])
  {
    if n < 10 then [DigitChar(n)] else NatToString(n / 10) + [DigitChar(n % 10)]
  }

  /** Python's `str(i)` for an integer. */
  function IntToString(i: int): string {
    if i < 0 then "-" + NatToString(-i) else NatToString(i)
  }

  /**
   * Python's `int(s)` on a string: surrounding whitespace, an optional sign
   * and at least one ASCII digit; anything else is a `ValueError`.
   */
  function ParseInt(s: string): (r: Option<int>) {
    var t := Strip(s);
    if t == [] then None
    else
      var sign, body := (if t[0] == '-' then -1 else 1), (if t[0] == '-' || t[0] == '+' then t[1..] else t);
      if body != [] && forall k :: 0 <= k < |body| ==> IsDigit(body[k]) then Some(sign * DigitsValue(body))
      else None
  }

  lemma {:induction false} DigitsValueOfNatToString(n: nat)
    ensures DigitsValue(NatToString(n)) == n
  {
    var s := NatToString(n);
    if n >= 10 {
      DigitsValueOfNatToString(n / 10);
      assert s[..|s| - 1] == NatToString(n / 10);
    }
  }

  /** Stripping text that neither starts nor ends with whitespace leaves it as it is. */
  lemma StripUnspaced(s: string)
    requires s != [] && !IsSpace(s[0]) && !IsSpace(s[|s| - 1])
    ensures Strip(s) == s
  {
    assert LStrip(s) == s;
  }

  /** `int` of an unsigned run of digits with nothing around it. */
  lemma ParseIntOfDigits(s: string, v: int)
    requires s != [] && forall k :: 0 <= k < |s| ==> IsDigit(s[k])
    requires DigitsValue(s) == v
    ensures ParseInt(s) == Some(v)
  {
    StripUnspaced(s);
  }

  /** `int` of a minus sign followed by digits. */
  lemma ParseIntOfNegative(s: string, digits: string, v: int)
    requires digits != [] && forall k :: 0 <= k < |digits| ==> IsDigit(digits[k])
    requires s == "-" + digits && DigitsValue(digits) == v
    ensures ParseInt(s).Some? && ParseInt(s).value == -v
  {
    assert s[|s| - 1] == digits[|digits| - 1];
    StripUnspaced(s);
    ParseIntOfStrippedNegative(s, digits, v);
  }

  lemma ParseIntOfStrippedNegative(s: string, digits: string, v: int)
    requires Strip(s) == s && s != [] && s[0] == '-' && s[1..] == digits
    requires digits != [] && forall k :: 0 <= k < |digits| ==> IsDigit(digits[k])
    requires DigitsValue(digits) == v
    ensures ParseInt(s).Some? && ParseInt(s).value == -v
  {
  }

  /** What `str` writes, `int` reads back: the JSON key round trip. */
  lemma ParseIntOfIntToString(i: int)
    ensures ParseInt(IntToString(i)) == Some(i)
  {
    var n: nat := if i < 0 then -i else i;
    DigitsValueOfNatToString(n);
    if i < 0 {
      ParseIntOfNegative(IntToString(i), NatToString(n), n);
      assert ParseInt(IntToString(i)).value == i;
    } else {
      ParseIntOfDigits(IntToString(i), n);
    }
  }
}
