/**
 ASCII text helpers used by the normalizer: digit strings and their values,
 decimal rendering with zero padding (Python's `str(int)` and `f"{n:0Wd}"`),
 whitespace trimming (`str.strip()`) and lower-casing (`str.lower()`).
 Only ASCII behaviour is modelled.
 */
module Text {

  predicate IsDigit(c: char) { '0' <= c <= '9' }

  predicate IsAsciiUpper(c: char) { 'A' <= c <= 'Z' }

  predicate IsAsciiLetter(c: char) { 'A' <= c <= 'Z' || 'a' <= c <= 'z' }

  /** The characters Python's `str.strip()` removes, restricted to ASCII:
      tab, line feed, vertical tab, form feed, carriage return, the four
      information separators 0x1C-0x1F, and space. */
  predicate IsSpace(c: char) {
    c == ' ' || (9 <= c as int <= 13) || (28 <= c as int <= 31)
  }

  predicate AllDigits(s: string) {
    forall i :: 0 <= i < |s| ==> IsDigit(s[i])
  }

  predicate HasDigit(s: string) {
    exists i :: 0 <= i < |s| && IsDigit(s[i])
  }

  function DigitValue(c: char): nat
    requires IsDigit(c)
  {
    c as int - '0' as int
  }

  function DigitChar(d: nat): (c: char)
    requires d < 10
    ensures IsDigit(c) && DigitValue(c) == d
  {
    ('0' as int + d) as char
  }

  /** The value of a string of decimal digits, read most significant digit first
      (Python's `int()` on such a string). */
  function DigitsValue(s: string): nat
    requires AllDigits(s)
    decreases |s|
  {
    if s == [] then 0 else DigitsValue(s[..|s| - 1]) * 10 + DigitValue(s[|s| - 1])
  }

  function Pow10(k: nat): nat
    ensures Pow10(k) >= 1
  {
    if k == 0 then 1 else 10 * Pow10(k - 1)
  }

  /** Two digits spell their decimal value. */
  lemma TwoDigits(s: string)
    requires |s| == 2 && AllDigits(s)
    ensures DigitsValue(s) == DigitValue(s[0]) * 10 + DigitValue(s[1])
  {
    assert s[..1][..0] == [] && s[..1][0] == s[0];
    assert DigitsValue(s[..1]) == DigitValue(s[0]);
  }

  /** Four digits spell their decimal value. */
  lemma FourDigits(s: string)
    requires |s| == 4 && AllDigits(s)
    ensures DigitsValue(s) == ((DigitValue(s[0]) * 10 + DigitValue(s[1])) * 10 + DigitValue(s[2])) * 10
                              + DigitValue(s[3])
  {
    assert s[..3][..2] == s[..2];
    TwoDigits(s[..2]);
  }

  /** Reading digits in two parts. */
  lemma {:induction false} DigitsValueAppend(x: string, y: string)
    requires AllDigits(x) && AllDigits(y)
    ensures AllDigits(x + y)
    ensures DigitsValue(x + y) == DigitsValue(x) * Pow10(|y|) + DigitsValue(y)
    decreases |y|
  {
    if y == [] {
      assert x + y == x;
    } else {
      var y', d := y[..|y| - 1], DigitValue(y[|y| - 1]);
      assert (x + y)[..|x + y| - 1] == x + y';
      assert (x + y)[|x + y| - 1] == y[|y| - 1];
      DigitsValueAppend(x, y');
      var a, p, v := DigitsValue(x), Pow10(|y'|), DigitsValue(y');
      assert DigitsValue(x + y) == (a * p + v) * 10 + d;
      assert DigitsValue(y) == v * 10 + d && Pow10(|y|) == p * 10;
      ShiftDigit(a, p, v, d);
    }
  }

  /** One more digit on the right multiplies what is before it by ten. */
  lemma ShiftDigit(a: int, p: int, v: int, d: int)
    ensures (a * p + v) * 10 + d == a * (p * 10) + (v * 10 + d)
  {
  }

  /** Shortest decimal rendering of a natural number (Python's `str(n)` for n >= 0). */
  function NatToString(n: nat): (r: string)
    ensures |r| >= 1 && AllDigits(r)
    ensures DigitsValue(r) == n
    ensures r[0] != '0' || r == "0"
    ensures n < Pow10(|r|)
    decreases n
  {
    if n < 10 then [DigitChar(n)]
    else
      var prefix := NatToString(n / 10);
      var r := prefix + [DigitChar(n % 10)];
      assert r[..|r| - 1] == prefix;
      r
  }

  /** Python's `str(i)` for an integer. */
  function IntToString(i: int): (r: string)
    ensures |r| >= 1
    ensures i >= 0 ==> AllDigits(r)
    ensures i < 0 ==> r[0] == '-' && AllDigits(r[1..])
    ensures i >= 0 ==> DigitsValue(r) == i
    ensures i < 0 ==> DigitsValue(r[1..]) == -i
  {
    if i < 0 then
      var r := "-" + NatToString(-i);
      assert r[1..] == NatToString(-i);
      r
    else NatToString(i)
  }

  function Zeros(k: nat): (r: string)
    ensures |r| == k && AllDigits(r)
    ensures forall i :: 0 <= i < k ==> r[i] == '0'
  {
    seq(k, _ => '0')
  }

  lemma {:induction false} LeadingZerosValue(k: nat, s: string)
    requires AllDigits(s)
    ensures AllDigits(Zeros(k) + s)
    ensures DigitsValue(Zeros(k) + s) == DigitsValue(s)
    decreases |s|
  {
    var z := Zeros(k) + s;
    if s == [] {
      assert z == Zeros(k);
      ZerosValue(k);
    } else {
      var s' := s[..|s| - 1];
      assert z[..|z| - 1] == Zeros(k) + s';
      LeadingZerosValue(k, s');
    }
  }

  lemma {:induction false} ZerosValue(k: nat)
    ensures DigitsValue(Zeros(k)) == 0
    decreases k
  {
    if k > 0 {
      assert Zeros(k)[..k - 1] == Zeros(k - 1);
      ZerosValue(k - 1);
    }
  }

  /** Python's `f"{n:0{width}d}"` for n >= 0: the decimal digits of n,
      left-padded with zeros to at least `width` characters. */
  function ZeroPad(n: nat, width: nat): (r: string)
    ensures AllDigits(r) && DigitsValue(r) == n
    ensures |r| >= width && |r| >= 1
    ensures width >= 1 && n < Pow10(width) ==> |r| == width
    ensures |r| > width ==> r == NatToString(n)
  {
    var s := NatToString(n);
    if |s| >= width then
      ShortestRendering(n, width);
      s
    else
      LeadingZerosValue(width - |s|, s);
      Zeros(width - |s|) + s
  }

  /** A number below 10^w needs at most w digits. */
  lemma {:induction false} ShortestRendering(n: nat, w: nat)
    ensures w >= 1 && n < Pow10(w) ==> |NatToString(n)| <= w
    decreases n
  {
    if n >= 10 && w >= 1 {
      ShortestRendering(n / 10, w - 1);
    }
  }

  /** A string of at most `k` digits denotes a number below 10^k. */
  lemma {:induction false} DigitsBound(s: string, k: nat)
    requires AllDigits(s) && |s| <= k
    ensures DigitsValue(s) < Pow10(k)
    decreases |s|
  {
    if s != [] {
      DigitsBound(s[..|s| - 1], k - 1);
    }
  }

  /** Two digit strings of the same length with the same value are equal. */
  lemma {:induction false} DigitsInjective(a: string, b: string)
    requires AllDigits(a) && AllDigits(b) && |a| == |b|
    requires DigitsValue(a) == DigitsValue(b)
    ensures a == b
    decreases |a|
  {
    if a != [] {
      var n := |a| - 1;
      assert DigitValue(a[n]) == DigitsValue(a) % 10 && DigitValue(b[n]) == DigitsValue(b) % 10;
      assert DigitsValue(a[..n]) == DigitsValue(a) / 10 && DigitsValue(b[..n]) == DigitsValue(b) / 10;
      DigitsInjective(a[..n], b[..n]);
      assert a == a[..n] + [a[n]] && b == b[..n] + [b[n]];
    }
  }

  /** Zero padding is the inverse of reading a digit string: padding the value
      of a digit string to its own length gives the string back. */
  lemma PadOfDigits(s: string)
    requires AllDigits(s) && |s| >= 1
    ensures ZeroPad(DigitsValue(s), |s|) == s
  {
    DigitsBound(s, |s|);
    DigitsInjective(ZeroPad(DigitsValue(s), |s|), s);
  }

  /** Python's `str.strip()` over ASCII whitespace: drops leading and
      trailing whitespace. */
  function Trim(s: string): (r: string)
    ensures |r| <= |s|
    ensures r == [] || (!IsSpace(r[0]) && !IsSpace(r[|r| - 1]))
    decreases |s|
  {
    if s != [] && IsSpace(s[0]) then Trim(s[1..])
    else if s != [] && IsSpace(s[|s| - 1]) then Trim(s[..|s| - 1])
    else s
  }

  /** A blank at the back, with none at the front, is stripped. */
  lemma TrimTrailing(s: string)
    requires s != [] && !IsSpace(s[0]) && IsSpace(s[|s| - 1])
    ensures Trim(s) == Trim(s[..|s| - 1])
  {
  }

  /** `r` is `s` with some whitespace removed from each end. */
  ghost predicate InnerSlice(s: string, r: string) {
    exists i, j :: InnerSliceAt(s, r, i, j)
  }

  /** `r` is `s[i..j]` and only whitespace lies outside it. */
  ghost predicate InnerSliceAt(s: string, r: string, i: int, j: int) {
    && 0 <= i <= j <= |s| && r == s[i..j]
    && (forall k :: 0 <= k < i ==> IsSpace(s[k]))
    && (forall k :: j <= k < |s| ==> IsSpace(s[k]))
  }

  /** Trimming removes whitespace at the two ends and nothing else. */
  lemma {:induction false} TrimIsInnerSlice(s: string)
    ensures InnerSlice(s, Trim(s))
    decreases |s|
  {
    if s != [] && IsSpace(s[0]) {
      TrimIsInnerSlice(s[1..]);
      InnerSliceOfTail(s, Trim(s[1..]));
    } else if s != [] && IsSpace(s[|s| - 1]) {
      TrimIsInnerSlice(s[..|s| - 1]);
      InnerSliceOfFront(s, Trim(s[..|s| - 1]));
    } else {
      assert InnerSliceAt(s, s, 0, |s|);
    }
  }

  lemma InnerSliceOfTail(s: string, r: string)
    requires s != [] && IsSpace(s[0]) && InnerSlice(s[1..], r)
    ensures InnerSlice(s, r)
  {
    var t := s[1..];
    var i, j :| InnerSliceAt(t, r, i, j);
    assert r == s[i + 1..j + 1];
    forall k | 0 <= k < i + 1 ensures IsSpace(s[k]) {
      if k > 0 { assert s[k] == t[k - 1]; }
    }
    forall k | j + 1 <= k < |s| ensures IsSpace(s[k]) {
      assert s[k] == t[k - 1];
    }
    assert InnerSliceAt(s, r, i + 1, j + 1);
  }

  lemma InnerSliceOfFront(s: string, r: string)
    requires s != [] && IsSpace(s[|s| - 1]) && InnerSlice(s[..|s| - 1], r)
    ensures InnerSlice(s, r)
  {
    var t := s[..|s| - 1];
    var i, j :| InnerSliceAt(t, r, i, j);
    assert r == s[i..j];
    forall k | 0 <= k < i ensures IsSpace(s[k]) {
      assert s[k] == t[k];
    }
    forall k | j <= k < |s| ensures IsSpace(s[k]) {
      if k < |t| { assert s[k] == t[k]; }
    }
    assert InnerSliceAt(s, r, i, j);
  }

  /** Trimming leaves nothing exactly when the text is all whitespace. */
  lemma TrimEmpty(s: string)
    ensures Trim(s) == [] <==> forall k :: 0 <= k < |s| ==> IsSpace(s[k])
  {
    TrimIsInnerSlice(s);
    var i, j :| InnerSliceAt(s, Trim(s), i, j);
    if forall k :: 0 <= k < |s| ==> IsSpace(s[k]) {
      AllSpaceTrim(s);
    }
  }

  lemma {:induction false} AllSpaceTrim(s: string)
    requires forall k :: 0 <= k < |s| ==> IsSpace(s[k])
    ensures Trim(s) == []
    decreases |s|
  {
    if s != [] {
      AllSpaceTrim(s[1..]);
    }
  }

  /** Trimming never changes a string that has no whitespace at either end. */
  lemma TrimNoSpace(s: string)
    requires forall i :: 0 <= i < |s| ==> !IsSpace(s[i])
    ensures Trim(s) == s
  {
  }

  function LowerChar(c: char): (r: char)
    ensures !IsAsciiUpper(r)
    ensures IsAsciiUpper(c) ==> r as int == c as int + 32
    ensures !IsAsciiUpper(c) ==> r == c
  {
    if IsAsciiUpper(c) then (c as int + 32) as char else c
  }

  /** Python's `str.lower()` restricted to ASCII letters. */
  function Lower(s: string): (r: string)
    ensures |r| == |s|
    ensures forall i :: 0 <= i < |s| ==> r[i] == LowerChar(s[i])
  {
    seq(|s|, i requires 0 <= i < |s| => LowerChar(s[i]))
  }

  predicate NoUpper(s: string) {
    forall i :: 0 <= i < |s| ==> !IsAsciiUpper(s[i])
  }

  /** Lower-casing is the identity exactly on strings without ASCII capitals. */
  lemma LowerFixedPoint(s: string)
    ensures Lower(s) == s <==> NoUpper(s)
  {
    if Lower(s) == s {
      forall i | 0 <= i < |s| ensures !IsAsciiUpper(s[i]) {
        assert LowerChar(s[i]) == s[i];
      }
    }
  }

  /** The number of occurrences of `c` in `s`. */
  function Count(s: string, c: char): nat
    ensures Count(s, c) <= |s|
  {
    if s == [] then 0 else (if s[0] == c then 1 else 0) + Count(s[1..], c)
  }

  lemma AppendAssoc<T>(a: seq<T>, b: seq<T>, c: seq<T>)
    ensures (a + b) + c == a + (b + c)
  {
  }

  /** Regrouping of three parts joined by the separator `x`. */
  lemma SepJoin(a: string, b: string, c: string, x: char)
    ensures a + [x] + b + [x] + c == a + ([x] + (b + ([x] + c)))
  {
    AppendAssoc(a + [x] + b, [x], c);
    AppendAssoc(a + [x], b, [x] + c);
    AppendAssoc(a, [x], b + ([x] + c));
  }

  /** Regrouping of three parts joined by dashes. */
  lemma DashJoin(a: string, b: string, c: string)
    ensures a + "-" + b + "-" + c == a + ("-" + (b + ("-" + c)))
  {
    SepJoin(a, b, c, '-');
  }

  /** `t` is `a`, `b` and `c` joined by dashes, described by its slices. */
  ghost predicate DashJoined(t: string, a: string, b: string, c: string) {
    && |t| == |a| + |b| + |c| + 2
    && t[0..|a|] == a && t[|a|] == '-'
    && t[|a| + 1..|a| + 1 + |b|] == b && t[|a| + 1 + |b|] == '-'
    && t[|a| + 2 + |b|..|t|] == c
  }

  lemma DashParts(a: string, b: string, c: string)
    ensures DashJoined(a + "-" + b + "-" + c, a, b, c)
  {
    DashJoin(a, b, c);
  }

  /** Occurrences of `c` add up over a concatenation. */
  lemma {:induction false} CountAppend(a: string, b: string, c: char)
    ensures Count(a + b, c) == Count(a, c) + Count(b, c)
    decreases |a|
  {
    if a == [] {
      assert a + b == b;
    } else {
      assert (a + b)[1..] == a[1..] + b;
      CountAppend(a[1..], b, c);
    }
  }

  /** `c` occurs in `s` exactly when its count is positive. */
  lemma {:induction false} CountPositive(s: string, c: char)
    ensures Count(s, c) > 0 <==> c in s
    decreases |s|
  {
    if s != [] {
      CountPositive(s[1..], c);
      assert c in s <==> s[0] == c || c in s[1..];
    }
  }

  /** The index of the first `c` in `s`, or `|s|` when there is none. */
  function IndexOf(s: string, c: char): (i: nat)
    ensures i <= |s|
    ensures i < |s| ==> s[i] == c
    ensures c !in s[..i]
    decreases |s|
  {
    if s == [] then 0
    else if s[0] == c then 0
    else
      var i := 1 + IndexOf(s[1..], c);
      assert s[..i] == [s[0]] + s[1..][..i - 1];
      i
  }
}
