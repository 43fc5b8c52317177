/**
 Worked inputs for the date normalizer, each derived from the general
 properties rather than by evaluation.
 */
module DateExamples {
  import opened Text
  import opened Json
  import opened Dates
  import opened DateLemmas

  /** `07/05/2023` is read day-first: the 7th of May. */
  lemma DayFirstExample(t: string)
    requires t == "07/05/2023"
    ensures NormalizeDate(JStr(t)) == JStr("2023-05-07")
  {
    var a, b, y := t[..2], t[3..5], t[6..];
    assert t == a + "/" + b + "/" + y;
    TwoDigits(a);
    TwoDigits(b);
    FourDigits(y);
    assert y + "-" + b + "-" + a == "2023-05-07";
    DayFirstRearranged(a, b, y);
  }

  /** `12/25/2023` has no 25th month, so it is read month-first. */
  lemma MonthFirstExample(t: string)
    requires t == "12/25/2023"
    ensures NormalizeDate(JStr(t)) == JStr("2023-12-25")
  {
    var a, b, y := t[..2], t[3..5], t[6..];
    assert t == a + "/" + b + "/" + y;
    TwoDigits(a);
    TwoDigits(b);
    FourDigits(y);
    assert y + "-" + a + "-" + b == "2023-12-25";
    MonthFirstRearranged(a, b, y);
  }

  /** Canonical-shaped text naming no real date comes back as it is. */
  lemma OutOfRangeIsoExample(t: string)
    requires t == "2023-13-45"
    ensures NormalizeDate(JStr(t)) == JStr(t)
  {
    var y, m, dd := t[..4], t[5..7], t[8..];
    assert t == y + "-" + m + "-" + dd;
    IsoTextPassesThrough(y, m, dd);
  }

  /** The fallback reorders `45-13-2023` year-first without a range check. */
  lemma SwappedFallbackExample(t: string)
    requires t == "45-13-2023"
    ensures NormalizeDate(JStr(t)) == JStr("2023-13-45")
  {
    var a, b, y := t[..2], t[3..5], t[6..];
    assert t == a + "-" + b + "-" + y;
    TwoDigits(a);
    TwoDigits(b);
    FourDigits(y);
    assert y + "-" + b + "-" + a == "2023-13-45";
    SwappedRearranged(a, b, y);
  }

  /** Text without a digit is returned trimmed and otherwise unchanged. */
  lemma NotADateExample(t: string)
    requires t == " not a date "
    ensures NormalizeDate(JStr(t)) == JStr("not a date")
  {
    var u := t[1..|t| - 1];
    assert Trim(t) == u by {
      assert Trim(t) == Trim(t[1..]);
      assert t[1..][..|t[1..]| - 1] == u;
      assert Trim(t[1..]) == Trim(u);
      assert u[0] == 'n' && u[|u| - 1] == 'e';
    }
    assert u == "not a date";
    assert !HasDigit(t);
    DigitFreeTextPassesThrough(t);
  }

  /** `May 7, 2023` is read by `%b %d, %Y`: the 7th of May. */
  lemma MonthNameExample(t: string)
    requires t == "May 7, 2023"
    ensures NormalizeDate(JStr(t)) == JStr("2023-05-07")
  {
    var m, a, y := "May", "7", "2023";
    assert t == m + " " + a + ", " + y;
    assert Lower(m) == MonthAbbrevs[4] by {
      assert LowerChar(m[0]) == 'm' && LowerChar(m[1]) == 'a' && LowerChar(m[2]) == 'y';
    }
    var mm, dd := "05", "07";
    assert DigitsValue(mm) == 5 && DigitsValue(dd) == 7 == DigitsValue(a) by {
      TwoDigits(mm);
      TwoDigits(dd);
    }
    assert DigitsValue(y) == 2023 by {
      FourDigits(y);
    }
    AbbrevFirstReading(m, 4, a, y);
    assert Render(Date(DigitsValue(y), 5, DigitsValue(a))) == "2023-05-07" by {
      RenderOfDigits(y, mm, dd);
      JoinedIso(y, mm, dd);
    }
  }

  lemma JoinedIso(y: string, mm: string, dd: string)
    requires y == "2023" && mm == "05" && dd == "07"
    ensures y + "-" + mm + "-" + dd == "2023-05-07"
  {
  }
}
