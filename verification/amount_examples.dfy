/**
 Worked inputs for the amount normalizer, each derived from the general
 properties rather than by evaluation.
 */
module AmountExamples {
  import opened Wrappers
  import opened Text
  import opened Json
  import opened Amounts

  /** A character that is not a digit contributes no digit. */
  lemma NoDigitChar(c: char)
    requires !IsDigit(c)
    ensures DigitString([c]) == []
  {
    assert [c][1..] == [];
  }

  /** Digit groups behind non-digits: the digits are the groups, joined. */
  lemma MarkedGroups(x: char, w: string, y: char, f: string)
    requires !IsDigit(x) && !IsDigit(y) && AllDigits(w) && AllDigits(f)
    ensures DigitString([x] + w + [y] + f) == w + f
  {
    NoDigitChar(x);
    NoDigitChar(y);
    var p := [x] + w;
    DigitStringAppend([x], w);
    assert DigitString(p) == w;
    DigitStringAppend(p, [y]);
    assert DigitString(p + [y]) == w;
    DigitStringAppend(p + [y], f);
  }

  /** Two digit groups around one non-digit: the digits are the groups,
      joined. */
  lemma AroundMark(w: string, y: char, f: string)
    requires !IsDigit(y) && AllDigits(w) && AllDigits(f)
    ensures DigitString(w + [y] + f) == w + f
  {
    NoDigitChar(y);
    DigitStringAppend(w, [y]);
    assert DigitString(w + [y]) == w;
    DigitStringAppend(w + [y], f);
  }

  /** The digits of `$1,234`. */
  lemma DollarDigits(a: string)
    requires a == "$1,234"
    ensures DigitString(a) == "1234"
  {
    var w, f := a[1..2], a[3..];
    assert a == [a[0]] + w + [a[2]] + f;
    assert AllDigits(w) && AllDigits(f);
    MarkedGroups(a[0], w, a[2], f);
    assert w + f == "1234";
  }

  /** The value of `123456`, read in three pairs. */
  lemma SixDigitsValue(s: string)
    requires s == "123456"
    ensures AllDigits(s) && DigitsValue(s) == 123456
  {
    DigitsValueAppend("12", "34");
    DigitsValueAppend("1234", "56");
    assert "1234" == "12" + "34" && s == "1234" + "56";
  }

  /** A period with commas before it: the commas group thousands. */
  lemma DollarExample(t: string, show: Json -> string)
    requires t == "$1,234.56"
    ensures NormalizeAmount(JStr(t), show) == JNum(Decimal(123456, 2))
  {
    var a, b := t[..6], t[7..];
    assert t == a + "." + b;
    assert '.' !in a && '.' !in b && HasDigit(a + b) by {
      assert a == "$1,234" && b == "56";
      assert IsDigit((a + b)[1]);
    }
    assert DigitString(a) + DigitString(b) == "123456" && |DigitString(b)| == 2 by {
      DollarDigits(a);
      NoMarks(b);
      assert "1234" + b == "123456";
    }
    assert DigitsValue("123456") == 123456 by {
      SixDigitsValue("123456");
    }
    PointAmount(a, b, show);
  }

  /** Digits alone are their own digits, and hold no period and no comma. */
  lemma NoMarks(s: string)
    requires AllDigits(s)
    ensures DigitString(s) == s && '.' !in s && ',' !in s
  {
    assert forall k :: 0 <= k < |s| ==> IsDigit(s[k]);
  }

  /** Two digit groups standing alone. */
  lemma PlainGroups(a: string, b: string)
    requires AllDigits(a) && AllDigits(b) && a != []
    ensures AllDigits(a + b) && HasDigit(a + b)
    ensures DigitString(a) + DigitString(b) == a + b && |DigitString(b)| == |b|
    ensures '.' !in a && '.' !in b && ',' !in a && ',' !in b
  {
    NoMarks(a);
    NoMarks(b);
    assert (a + b)[0] == a[0];
    assert forall k :: 0 <= k < |a + b| ==> IsDigit((a + b)[k]);
  }

  /** The pieces of digits, a period, digits, a comma, digits: no period on
      either side of the period, and the digits are the three groups. */
  lemma PointBeforeCommaParts(a: string, w: string, f: string)
    requires AllDigits(a) && AllDigits(w) && AllDigits(f) && a != []
    ensures '.' !in a && '.' !in w + "," + f && HasDigit(a + (w + "," + f))
    ensures DigitString(a) == a && DigitString(w + "," + f) == w + f
    ensures AllDigits(a + (w + f))
  {
    var b := w + "," + f;
    assert '.' !in b && DigitString(b) == w + f by {
      NoMarks(w);
      NoMarks(f);
      AroundMark(w, ',', f);
    }
    assert '.' !in a && DigitString(a) == a && AllDigits(a + (w + f)) by {
      PlainGroups(a, w + f);
    }
    assert IsDigit((a + b)[0]);
  }

  /** Digits, a period, digits, a comma, digits: the period is taken for a
      thousands separator and the comma is dropped, so every digit after the
      period counts towards the scale. */
  lemma PointBeforeComma(a: string, w: string, f: string, show: Json -> string)
    requires AllDigits(a) && AllDigits(w) && AllDigits(f) && a != []
    ensures AllDigits(a + (w + f))
    ensures NormalizeAmount(JStr(a + "." + (w + "," + f)), show)
            == JNum(Decimal(DigitsValue(a + (w + f)), |w| + |f|))
  {
    PointBeforeCommaParts(a, w, f);
    PointAmount(a, w + "," + f, show);
  }

  /** A period before a comma: the code takes the period for a thousands
      separator and the comma for nothing, so `1.234,56` reads as 1.23456
      and not as 1234.56. */
  lemma ContinentalExample(t: string, show: Json -> string)
    requires t == "1.234,56"
    ensures NormalizeAmount(JStr(t), show) == JNum(Decimal(123456, 5))
  {
    var a, w, f := t[..1], t[2..5], t[6..];
    assert t == a + "." + (w + "," + f);
    assert AllDigits(a) && AllDigits(w) && AllDigits(f);
    assert a + (w + f) == "123456";
    SixDigitsValue(a + (w + f));
    PointBeforeComma(a, w, f, show);
  }

  /** A lone comma is a decimal comma: `12,50` reads as 12.5. */
  lemma DecimalCommaExample(t: string, show: Json -> string)
    requires t == "12,50"
    ensures NormalizeAmount(JStr(t), show) == JNum(Decimal(1250, 2))
  {
    var a, b := t[..2], t[3..];
    assert t == a + "," + b;
    PlainGroups(a, b);
    FourDigits(a + b);
    assert (a + b)[0] == '1' && (a + b)[1] == '2' && (a + b)[2] == '5' && (a + b)[3] == '0';
    assert DigitsValue(a + b) == 1250;
    CommaAmount(a, b, show);
  }

  /** A leading minus sign is lost: `-12.50` reads as 12.5. */
  lemma NegativeExample(t: string, show: Json -> string)
    requires t == "-12.50"
    ensures NormalizeAmount(JStr(t), show) == JNum(Decimal(1250, 2))
  {
    var a, b := t[1..3], t[4..];
    var s := a + "." + b;
    assert t == "-" + s;
    PlainGroups(a, b);
    FourDigits(a + b);
    assert (a + b)[0] == '1' && (a + b)[1] == '2' && (a + b)[2] == '5' && (a + b)[3] == '0';
    assert DigitsValue(a + b) == 1250;
    PointMark(a, b);
    assert ParseAmount(s) == Some(Decimal(1250, 2));
    SignIsDropped(s, show);
  }

  /** Thousands separators without a decimal point are taken for decimal
      commas, two of them cannot be read, and the text comes back as it
      was. */
  lemma ThousandsOnlyExample(t: string, show: Json -> string)
    requires t == "1,234,567"
    ensures NormalizeAmount(JStr(t), show) == JStr(t)
  {
    assert t == "1" + "," + "234" + "," + "567";
    TwoCommas("1", "234", "567");
    TrimEmpty(t);
    assert !IsSpace(t[0]);
    AmountOfText(JStr(t), show);
  }

  /** Text without a digit comes back as it was. */
  lemma WordExample(t: string, show: Json -> string)
    requires t == "abc"
    ensures NormalizeAmount(JStr(t), show) == JStr(t)
  {
    assert !IsDigit(t[0]) && !IsDigit(t[1]) && !IsDigit(t[2]);
    assert !HasDigit(t);
    TrimEmpty(t);
    assert !IsSpace(t[0]);
    AmountOfText(JStr(t), show);
  }

  /** Blank text is no amount. */
  lemma BlankExample(t: string, show: Json -> string)
    requires t == "   "
    ensures NormalizeAmount(JStr(t), show) == JNull
  {
    assert IsSpace(t[0]) && IsSpace(t[1]) && IsSpace(t[2]);
    TrimEmpty(t);
    AmountOfText(JStr(t), show);
  }
}
