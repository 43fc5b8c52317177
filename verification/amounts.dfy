/**
 The amount normalizer: numbers become floats, text is stripped of
 everything but digits, periods and commas, the decimal mark is settled,
 and what is left is read as a float; unreadable text is handed back.
 Floats are modelled as exact decimals.
 */
module Amounts {
  import opened Wrappers
  import opened Text
  import opened Json

  /** A character the cleaning pattern `[^\d.,]` keeps. */
  predicate Kept(c: char) {
    IsDigit(c) || c == '.' || c == ','
  }

  /** Text made of digits and periods only: what `float()` is given once
      the decimal mark has been settled. */
  predicate DigitsAndPoints(s: string) {
    forall i :: 0 <= i < |s| ==> IsDigit(s[i]) || s[i] == '.'
  }

  /** The digits of `s`, in order. */
  function DigitString(s: string): (r: string)
    ensures AllDigits(r) && |r| <= |s|
    ensures r != [] <==> HasDigit(s)
    ensures AllDigits(s) ==> r == s
    decreases |s|
  {
    if s == [] then []
    else
      var rest := DigitString(s[1..]);
      assert HasDigit(s) <==> IsDigit(s[0]) || HasDigit(s[1..]) by {
        if HasDigit(s[1..]) {
          var i :| 0 <= i < |s[1..]| && IsDigit(s[1..][i]);
          assert IsDigit(s[i + 1]);
        }
        if HasDigit(s) && !IsDigit(s[0]) {
          var i :| 0 <= i < |s| && IsDigit(s[i]);
          assert IsDigit(s[1..][i - 1]);
        }
      }
      if IsDigit(s[0]) then
        assert AllDigits(s) ==> s == [s[0]] + s[1..];
        [s[0]] + rest
      else rest
  }

  /** `re.sub(r'[^\d.,]', '', s)`: removes every character but digits,
      periods and commas. */
  function Clean(s: string): (r: string)
    ensures forall i :: 0 <= i < |r| ==> Kept(r[i])
    ensures Count(r, '.') == Count(s, '.') && Count(r, ',') == Count(s, ',')
    ensures DigitString(r) == DigitString(s)
    ensures (forall i :: 0 <= i < |s| ==> Kept(s[i])) ==> r == s
    decreases |s|
  {
    if s == [] then []
    else
      var rest := Clean(s[1..]);
      if Kept(s[0]) then
        var r := [s[0]] + rest;
        assert r[1..] == rest;
        r
      else rest
  }

  /** `s.replace(',', '.')`. */
  function CommasToPoints(s: string): (r: string)
    ensures |r| == |s| && ',' !in r
    ensures forall i :: 0 <= i < |s| ==> r[i] == (if s[i] == ',' then '.' else s[i])
    ensures ',' !in s ==> r == s
    decreases |s|
  {
    if s == [] then []
    else
      var r := [if s[0] == ',' then '.' else s[0]] + CommasToPoints(s[1..]);
      assert r[1..] == CommasToPoints(s[1..]);
      assert ',' !in s ==> s == [s[0]] + s[1..] && ',' !in s[1..];
      r
  }

  /** Turning commas into points keeps the digits, and every comma adds a
      period. */
  lemma {:induction false} CommasToPointsCounts(s: string)
    ensures Count(CommasToPoints(s), '.') == Count(s, '.') + Count(s, ',')
    ensures DigitString(CommasToPoints(s)) == DigitString(s)
    decreases |s|
  {
    if s != [] {
      CommasToPointsCounts(s[1..]);
      var r := CommasToPoints(s);
      assert r[1..] == CommasToPoints(s[1..]);
    }
  }

  /** `s.replace(',', '')`. */
  function DropCommas(s: string): (r: string)
    ensures ',' !in r && Count(r, '.') == Count(s, '.')
    ensures DigitString(r) == DigitString(s)
    ensures (forall i :: 0 <= i < |s| ==> Kept(s[i])) ==> DigitsAndPoints(r)
    ensures ',' !in s ==> r == s
    decreases |s|
  {
    if s == [] then []
    else if s[0] == ',' then DropCommas(s[1..])
    else
      var r := [s[0]] + DropCommas(s[1..]);
      assert r[1..] == DropCommas(s[1..]);
      r
  }

  /** The decimal-mark rule: commas alone are decimal commas and become
      periods; next to a period they are thousands separators and go; text
      without commas is left as it is. */
  function Reconcile(s: string): (r: string)
    requires forall i :: 0 <= i < |s| ==> Kept(s[i])
    ensures DigitsAndPoints(r)
    ensures DigitString(r) == DigitString(s)
    ensures Count(r, '.') == if '.' in s then Count(s, '.') else Count(s, ',')
  {
    CountPositive(s, '.');
    CountPositive(s, ',');
    if ',' in s && '.' !in s then
      var r := CommasToPoints(s);
      CommasToPointsCounts(s);
      assert forall i :: 0 <= i < |r| ==> IsDigit(r[i]) || r[i] == '.' by {
        forall i | 0 <= i < |r| ensures IsDigit(r[i]) || r[i] == '.' {
          assert Kept(s[i]);
        }
      }
      r
    else if ',' in s && '.' in s then DropCommas(s)
    else
      assert DigitsAndPoints(s) by {
        forall i | 0 <= i < |s| ensures IsDigit(s[i]) || s[i] == '.' {
          assert Kept(s[i]) && s[i] in s;
        }
      }
      s
  }

  /** Python's `float()` on text of digits and periods: at least one digit
      and at most one period, read exactly. */
  function ParseDecimal(s: string): (r: Option<Decimal>)
    requires DigitsAndPoints(s)
    ensures r.Some? <==> HasDigit(s) && Count(s, '.') <= 1
    ensures r.Some? ==> r.value.mantissa == DigitsValue(DigitString(s))
    ensures r.Some? && '.' !in s ==> r.value.scale == 0
    ensures r.Some? && '.' in s ==> r.value.scale < |s| && s[|s| - 1 - r.value.scale] == '.'
  {
    var i := IndexOf(s, '.');
    if i == |s| then
      NoPointDigits(s);
      CountPositive(s, '.');
      if HasDigit(s) then Some(Decimal(DigitsValue(s), 0)) else None
    else
      var whole, frac := s[..i], s[i + 1..];
      SplitAtPoint(s, i);
      CountPositive(frac, '.');
      if '.' in frac || !HasDigit(whole + frac) then None
      else
        NoPointDigits(frac);
        Some(Decimal(DigitsValue(whole + frac), |frac|))
  }

  /** Digits-and-periods text without a period is all digits. */
  lemma NoPointDigits(s: string)
    requires DigitsAndPoints(s) && '.' !in s
    ensures AllDigits(s)
  {
    forall j | 0 <= j < |s| ensures IsDigit(s[j]) {
      assert s[j] in s;
    }
  }

  /** Splitting at the first period: the two sides hold all the digits, and
      the periods are that one and those after it. */
  lemma SplitAtPoint(s: string, i: nat)
    requires DigitsAndPoints(s) && i < |s| && s[i] == '.' && '.' !in s[..i]
    ensures AllDigits(s[..i]) && DigitsAndPoints(s[i + 1..])
    ensures DigitString(s) == DigitString(s[..i] + s[i + 1..])
    ensures Count(s, '.') == 1 + Count(s[i + 1..], '.')
  {
    var whole, rest := s[..i], s[i + 1..];
    var tail := [s[i]] + rest;
    NoPointDigits(whole);
    assert s[i..] == tail;
    assert s == whole + s[i..];
    assert DigitsAndPoints(rest) by {
      forall j | 0 <= j < |rest| ensures IsDigit(rest[j]) || rest[j] == '.' {
        assert rest[j] == s[i + 1 + j];
      }
    }
    assert tail[1..] == rest;
    assert DigitString(tail) == DigitString(rest);
    assert Count(tail, '.') == 1 + Count(rest, '.');
    DigitStringAppend(whole, tail);
    DigitStringAppend(whole, rest);
    CountAppend(whole, tail, '.');
    CountPositive(whole, '.');
  }

  /** The digits of a concatenation are the digits of each part. */
  lemma {:induction false} DigitStringAppend(a: string, b: string)
    ensures DigitString(a + b) == DigitString(a) + DigitString(b)
    decreases |a|
  {
    if a == [] {
      assert a + b == b;
    } else {
      assert (a + b)[1..] == a[1..] + b;
      DigitStringAppend(a[1..], b);
    }
  }

  /** Cleaning distributes over concatenation. */
  lemma {:induction false} CleanAppend(a: string, b: string)
    ensures Clean(a + b) == Clean(a) + Clean(b)
    decreases |a|
  {
    if a == [] {
      assert a + b == b;
    } else {
      assert (a + b)[1..] == a[1..] + b;
      CleanAppend(a[1..], b);
    }
  }

  /** Stripping first makes no difference to what cleaning keeps. */
  lemma {:induction false} CleanOfTrim(s: string)
    ensures Clean(Trim(s)) == Clean(s)
    decreases |s|
  {
    if s != [] && IsSpace(s[0]) {
      CleanOfTrim(s[1..]);
      LeadingBlank(s);
    } else if s != [] && IsSpace(s[|s| - 1]) {
      CleanOfTrim(s[..|s| - 1]);
      TrailingBlank(s);
    }
  }

  /** A blank at the front is stripped and cleaned away alike. */
  lemma LeadingBlank(s: string)
    requires s != [] && IsSpace(s[0])
    ensures Trim(s) == Trim(s[1..]) && Clean(s) == Clean(s[1..])
  {
    assert !Kept(s[0]);
  }

  /** A blank at the back, with none at the front, is stripped and cleaned
      away alike. */
  lemma TrailingBlank(s: string)
    requires s != [] && !IsSpace(s[0]) && IsSpace(s[|s| - 1])
    ensures Trim(s) == Trim(s[..|s| - 1]) && Clean(s) == Clean(s[..|s| - 1])
  {
    TrimTrailing(s);
    assert !Kept(s[|s| - 1]);
    DroppedLast(s);
  }

  /** A last character that is not kept changes nothing. */
  lemma {:induction false} DroppedLast(s: string)
    requires s != [] && !Kept(s[|s| - 1])
    ensures Clean(s) == Clean(s[..|s| - 1])
    decreases |s|
  {
    if |s| == 1 {
      assert s[1..] == [] && s[..0] == [];
    } else {
      var t, f := s[1..], s[..|s| - 1];
      assert t[|t| - 1] == s[|s| - 1];
      DroppedLast(t);
      assert f[0] == s[0] && f[1..] == t[..|t| - 1];
    }
  }

  /** The text `float()` accepts once cleaned and reconciled: some digit, and
      at most one decimal mark -- one period, or, when there is no period,
      one comma. */
  predicate Readable(s: string) {
    HasDigit(s) && (if '.' in s then Count(s, '.') <= 1 else Count(s, ',') <= 1)
  }

  /** `float()` of the cleaned text with its decimal mark settled. */
  function ParseAmount(s: string): (r: Option<Decimal>)
    ensures r.Some? <==> Readable(s)
    ensures r.Some? ==> r.value.mantissa == DigitsValue(DigitString(s))
  {
    var c := Clean(s);
    CountPositive(c, '.');
    CountPositive(s, '.');
    ParseDecimal(Reconcile(c))
  }

  /** The text `str(amount_val)` of a value that is neither `None` nor a
      number; `show` stands for Python's `str()` of a list or a dict. */
  function AmountText(v: Json, show: Json -> string): string
    requires v.JStr? || v.JArr? || v.JObj?
  {
    if v.JStr? then v.s else show(v)
  }

  /** `normalize_amount`: `None` stays `None`, numbers (booleans included)
      become floats, and other values are read through their text: blank
      text gives `None`, unreadable text gives the value back. */
  function NormalizeAmount(v: Json, show: Json -> string): (r: Json)
    ensures v.JNull? ==> r.JNull?
    ensures v.JInt? ==> r == JNum(Decimal(v.i, 0))
    ensures v.JBool? ==> r == JNum(Decimal(if v.b then 1 else 0, 0))
    ensures v.JNum? ==> r == v
    ensures r == v || r.JNull? || r.JNum?
  {
    match v
    case JNull => JNull
    case JBool(b) => JNum(Decimal(if b then 1 else 0, 0))
    case JInt(i) => JNum(Decimal(i, 0))
    case JNum(_) => v
    case _ =>
      var t := Trim(AmountText(v, show));
      if t == [] then JNull
      else
        match ParseAmount(t)
        case Some(d) => JNum(d)
        case None => v
  }

  /** Text amounts: blank text gives `None`; otherwise the amount is a
      float exactly when the text is readable, and then its digits, in
      order, are the digits of the text -- so it is never negative; an
      unreadable value comes back unchanged. */
  lemma AmountOfText(v: Json, show: Json -> string)
    requires v.JStr? || v.JArr? || v.JObj?
    ensures var s, r := AmountText(v, show), NormalizeAmount(v, show);
            && (r.JNull? <==> Trim(s) == [])
            && (r.JNum? <==> Readable(s))
            && (r.JNum? ==> r.n.mantissa == DigitsValue(DigitString(s)) && r.n.mantissa >= 0)
            && (!r.JNum? && !r.JNull? ==> r == v)
  {
    var s := AmountText(v, show);
    AmountOfUntrimmed(v, show);
    if Trim(s) == [] {
      BlankIsUnreadable(s);
    }
  }

  /** Stripping the text first makes no difference to the parse. */
  lemma AmountOfUntrimmed(v: Json, show: Json -> string)
    requires v.JStr? || v.JArr? || v.JObj?
    ensures var s := AmountText(v, show);
            NormalizeAmount(v, show)
            == if Trim(s) == [] then JNull
               else match ParseAmount(s) case Some(d) => JNum(d) case None => v
  {
    var s := AmountText(v, show);
    CleanOfTrim(s);
    SameCleanSameAmount(Trim(s), s);
  }

  /** Blank text has no digit. */
  lemma BlankIsUnreadable(s: string)
    requires Trim(s) == []
    ensures !HasDigit(s) && !Readable(s)
  {
    CleanOfTrim(s);
    assert DigitString(s) == [] by {
      assert DigitString(Clean(s)) == [];
    }
  }

  /** Normalizing an amount twice is the same as normalizing it once. */
  lemma AmountIdempotent(v: Json, show: Json -> string)
    ensures NormalizeAmount(NormalizeAmount(v, show), show) == NormalizeAmount(v, show)
  {
  }

  /** Text whose stripped form parses is normalized to that number. */
  lemma TextAmount(s: string, show: Json -> string)
    requires Trim(s) != [] && ParseAmount(Trim(s)).Some?
    ensures NormalizeAmount(JStr(s), show) == JNum(ParseAmount(Trim(s)).value)
  {
  }

  /** Readable text is normalized to the number it reads as: stripping the
      blanks around it first changes nothing. */
  lemma ReadableText(s: string, show: Json -> string)
    requires ParseAmount(s).Some?
    ensures NormalizeAmount(JStr(s), show) == JNum(ParseAmount(s).value)
  {
    CleanOfTrim(s);
    SameCleanSameAmount(Trim(s), s);
    assert Trim(s) != [] by {
      assert DigitString(Clean(s)) != [];
    }
    TextAmount(s, show);
  }

  /** Only the cleaned text matters to the parse. */
  lemma SameCleanSameAmount(a: string, b: string)
    requires Clean(a) == Clean(b)
    ensures ParseAmount(a) == ParseAmount(b)
  {
  }

  /** The minus sign is cleaned away with the currency symbols: `-12.50`
      reads as 12.5. */
  lemma SignIsDropped(s: string, show: Json -> string)
    requires ParseAmount(s).Some?
    ensures NormalizeAmount(JStr("-" + s), show) == JNum(ParseAmount(s).value)
  {
    var m := "-" + s;
    CleanAppend("-", s);
    assert Clean("-") == [];
    SameCleanSameAmount(m, s);
    ReadableText(m, show);
  }

  // ---------------------------------------------------------------------------
  // Printing a decimal and reading it back

  /** A non-negative decimal written out with exactly `scale` digits after
      the point, and no point when the scale is zero. */
  function ShowDecimal(d: Decimal): (s: string)
    requires d.mantissa >= 0
    ensures DigitsAndPoints(s) && HasDigit(s) && ',' !in s
  {
    var digits := ZeroPad(d.mantissa, d.scale + 1);
    var k := |digits| - d.scale;
    if d.scale == 0 then
      assert digits[0] in digits;
      digits
    else
      var s := digits[..k] + "." + digits[k..];
      assert DigitsAndPoints(s) && ',' !in s by {
        forall i | 0 <= i < |s| ensures IsDigit(s[i]) || s[i] == '.' {
          if i < k { assert s[i] == digits[i]; }
          else if i > k { assert s[i] == digits[i - 1]; }
        }
      }
      assert IsDigit(s[0]) by { assert s[0] == digits[0]; }
      s
  }

  /** Digits, a period and digits are read as the digits over a power of
      ten given by the length of the second group. */
  lemma PointedDigits(w: string, f: string)
    requires AllDigits(w) && AllDigits(f) && w + f != []
    ensures var s := w + "." + f;
            DigitsAndPoints(s) && AllDigits(w + f)
            && ParseDecimal(s) == Some(Decimal(DigitsValue(w + f), |f|))
  {
    var s := w + "." + f;
    assert forall i :: 0 <= i < |w + f| ==> IsDigit((w + f)[i]);
    assert DigitsAndPoints(s) by {
      forall i | 0 <= i < |s| ensures IsDigit(s[i]) || s[i] == '.' {
        if i < |w| { assert s[i] == w[i]; }
        else if i > |w| { assert s[i] == f[i - |w| - 1]; }
      }
    }
    var i := IndexOf(s, '.');
    assert s[|w|] == '.';
    assert i == |w|;
    assert s[..i] == w && s[i + 1..] == f;
    assert '.' !in f;
    assert IsDigit((w + f)[0]);
  }

  /** Reading a printed decimal gives it back. */
  lemma ShowParseRoundTrip(d: Decimal)
    requires d.mantissa >= 0
    ensures ParseDecimal(ShowDecimal(d)) == Some(d)
  {
    if d.scale == 0 {
      ShowWholeRoundTrip(d);
    } else {
      ShowPointedRoundTrip(d);
    }
  }

  /** A printed whole number is read back. */
  lemma ShowWholeRoundTrip(d: Decimal)
    requires d.mantissa >= 0 && d.scale == 0
    ensures ParseDecimal(ShowDecimal(d)) == Some(d)
  {
    var digits := ZeroPad(d.mantissa, 1);
    assert ShowDecimal(d) == digits;
    CountPositive(digits, '.');
  }

  /** A printed number with a point is read back. */
  lemma ShowPointedRoundTrip(d: Decimal)
    requires d.mantissa >= 0 && d.scale > 0
    ensures ParseDecimal(ShowDecimal(d)) == Some(d)
  {
    var digits := ZeroPad(d.mantissa, d.scale + 1);
    var k := |digits| - d.scale;
    var w, f := digits[..k], digits[k..];
    assert ShowDecimal(d) == w + "." + f;
    SliceDigits(digits, k);
    PointedDigits(w, f);
  }

  /** The two parts of a digit string are digit strings that join back to it. */
  lemma SliceDigits(digits: string, k: nat)
    requires AllDigits(digits) && k <= |digits|
    ensures AllDigits(digits[..k]) && AllDigits(digits[k..])
    ensures digits[..k] + digits[k..] == digits
  {
    assert forall i :: 0 <= i < |digits[k..]| ==> digits[k..][i] == digits[k + i];
  }

  /** A printed amount is normalized to itself. */
  lemma AmountRoundTrip(d: Decimal, show: Json -> string)
    requires d.mantissa >= 0
    ensures NormalizeAmount(JStr(ShowDecimal(d)), show) == JNum(d)
  {
    var s := ShowDecimal(d);
    DecimalTextIsRead(s);
    ShowParseRoundTrip(d);
    TextAmount(s, show);
  }

  /** Text of digits and periods, without blanks around it, goes straight
      to `float()`. */
  lemma DecimalTextIsRead(s: string)
    requires DigitsAndPoints(s) && ',' !in s
    ensures Trim(s) == s && ParseAmount(s) == ParseDecimal(s)
  {
    forall i | 0 <= i < |s| ensures !IsSpace(s[i]) {
      assert IsDigit(s[i]) || s[i] == '.';
    }
    TrimNoSpace(s);
    CountPositive(s, ',');
  }

  // ---------------------------------------------------------------------------
  // Where the decimal point lands

  /** Dropping commas distributes over concatenation. */
  lemma {:induction false} DropCommasAppend(a: string, b: string)
    ensures DropCommas(a + b) == DropCommas(a) + DropCommas(b)
    decreases |a|
  {
    if a == [] {
      assert a + b == b;
    } else {
      assert (a + b)[1..] == a[1..] + b;
      DropCommasAppend(a[1..], b);
    }
  }

  /** Cleaned text without a period, its commas dropped, is its digits. */
  lemma {:induction false} DropCommasOfClean(x: string)
    requires '.' !in x
    ensures DropCommas(Clean(x)) == DigitString(x)
    decreases |x|
  {
    if x != [] {
      assert x[0] in x && forall c :: c in x[1..] ==> c in x;
      DropCommasOfClean(x[1..]);
      if Kept(x[0]) {
        assert ([x[0]] + Clean(x[1..]))[1..] == Clean(x[1..]);
      }
    }
  }

  /** Cleaned text without a period or a comma is its digits. */
  lemma CleanOfUnmarked(x: string)
    requires '.' !in x && ',' !in x
    ensures Clean(x) == DigitString(x)
  {
    DropCommasOfClean(x);
    CountPositive(x, ',');
    CountPositive(Clean(x), ',');
  }

  /** Turning commas into points distributes over concatenation. */
  lemma {:induction false} CommasToPointsAppend(a: string, b: string)
    ensures CommasToPoints(a + b) == CommasToPoints(a) + CommasToPoints(b)
    decreases |a|
  {
    if a == [] {
      assert a + b == b;
    } else {
      assert (a + b)[1..] == a[1..] + b;
      CommasToPointsAppend(a[1..], b);
    }
  }

  /** A decimal comma between digit groups becomes a point. */
  lemma CommaToPoint(w: string, f: string)
    requires AllDigits(w) && AllDigits(f)
    ensures CommasToPoints(w + "," + f) == w + "." + f
  {
    CommasToPointsAppend(w + ",", f);
    CommasToPointsAppend(w, ",");
    assert CommasToPoints(",") == "." by {
      assert ","[1..] == [];
    }
    assert ',' !in w && ',' !in f;
  }

  /** Cleaning text around one period: the period stays between the
      cleaned sides. */
  lemma CleanAround(a: string, x: char, b: string)
    requires Kept(x)
    ensures Clean(a + [x] + b) == Clean(a) + [x] + Clean(b)
  {
    CleanAppend(a + [x], b);
    CleanAppend(a, [x]);
    assert Clean([x]) == [x] by {
      assert [x][1..] == [];
    }
  }

  /** Text with one period: the amount's digits are all the digits of the
      text, and its scale is the number of digits after the period; commas
      anywhere are thousands separators. */
  lemma PointMark(a: string, b: string)
    requires '.' !in a && '.' !in b && HasDigit(a + b)
    ensures ParseAmount(a + "." + b)
            == Some(Decimal(DigitsValue(DigitString(a) + DigitString(b)), |DigitString(b)|))
  {
    var s := a + "." + b;
    var w, f := DigitString(a), DigitString(b);
    CleanAround(a, '.', b);
    var c := Clean(s);
    CountPositive(c, '.');
    assert c[|Clean(a)|] == '.';
    DropCommasAppend(Clean(a) + ".", Clean(b));
    DropCommasAppend(Clean(a), ".");
    assert DropCommas(".") == "." by {
      assert "."[1..] == [];
    }
    DropCommasOfClean(a);
    DropCommasOfClean(b);
    assert DropCommas(c) == w + "." + f;
    assert Reconcile(c) == w + "." + f;
    DigitStringAppend(a, b);
    PointedDigits(w, f);
  }

  /** `normalize_amount` of text with one period. */
  lemma PointAmount(a: string, b: string, show: Json -> string)
    requires '.' !in a && '.' !in b && HasDigit(a + b)
    ensures NormalizeAmount(JStr(a + "." + b), show)
            == JNum(Decimal(DigitsValue(DigitString(a) + DigitString(b)), |DigitString(b)|))
  {
    PointMark(a, b);
    ReadableText(a + "." + b, show);
  }

  /** Text with one comma and no period: the comma is the decimal mark. */
  lemma CommaMark(a: string, b: string)
    requires '.' !in a && '.' !in b && ',' !in a && ',' !in b && HasDigit(a + b)
    ensures ParseAmount(a + "," + b)
            == Some(Decimal(DigitsValue(DigitString(a) + DigitString(b)), |DigitString(b)|))
  {
    var s := a + "," + b;
    var w, f := DigitString(a), DigitString(b);
    CleanAround(a, ',', b);
    CleanOfUnmarked(a);
    CleanOfUnmarked(b);
    var c := Clean(s);
    assert c == w + "," + f;
    CountPositive(c, '.');
    CountPositive(c, ',');
    assert c[|w|] == ',';
    assert '.' !in c by {
      CountAppend(w + ",", f, '.');
      CountAppend(w, ",", '.');
      CountPositive(w, '.');
      CountPositive(f, '.');
      assert Count(",", '.') == 0 by { assert ","[1..] == []; }
    }
    CommaToPoint(w, f);
    DigitStringAppend(a, b);
    PointedDigits(w, f);
  }

  /** `normalize_amount` of text with one comma and no period. */
  lemma CommaAmount(a: string, b: string, show: Json -> string)
    requires '.' !in a && '.' !in b && ',' !in a && ',' !in b && HasDigit(a + b)
    ensures NormalizeAmount(JStr(a + "," + b), show)
            == JNum(Decimal(DigitsValue(DigitString(a) + DigitString(b)), |DigitString(b)|))
  {
    CommaMark(a, b);
    ReadableText(a + "," + b, show);
  }

  /** Text with two commas and no period is not read: the commas are taken
      for a decimal mark, and `float()` refuses two of them. */
  lemma TwoCommas(a: string, b: string, c: string)
    requires '.' !in a && '.' !in b && '.' !in c
    ensures ParseAmount(a + "," + b + "," + c).None?
  {
    var s := a + "," + b + "," + c;
    CountAppend(a + "," + b + ",", c, ',');
    CountAppend(a + "," + b, ",", ',');
    CountAppend(a + ",", b, ',');
    CountAppend(a, ",", ',');
    assert Count(",", ',') == 1 by { assert ","[1..] == []; }
    assert '.' !in s;
  }

  /** Text with neither a period nor a comma is a whole amount. */
  lemma WholeAmount(s: string)
    requires '.' !in s && ',' !in s && HasDigit(s)
    ensures ParseAmount(s) == Some(Decimal(DigitsValue(DigitString(s)), 0))
  {
    CleanOfUnmarked(s);
    CountPositive(s, '.');
    CountPositive(s, ',');
  }
}
