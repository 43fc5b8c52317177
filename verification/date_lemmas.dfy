/**
 Properties of the date normalizer: catalogue order (the first layout that
 parses wins, so day-first beats month-first), the round trip through the
 canonical layout, the fallback's lack of a range check, and the
 pass-through of text the normalizer cannot read.
 */
module DateLemmas {
  import opened Wrappers
  import opened Text
  import opened Json
  import opened Dates

  predicate NumericField(t: Token) {
    t == Field(Day) || t == Field(Month) || t == Field(Year)
  }

  ghost predicate HasLit(fmt: Format, c: char) {
    exists j :: 0 <= j < |fmt| && fmt[j] == Lit(c)
  }

  // ---------------------------------------------------------------------------
  // One step of a scan

  lemma ScanLit(fmt: Format, c: char, rest: string, acc: Date)
    requires fmt != [] && fmt[0] == Lit(c)
    ensures Scan(fmt, [c] + rest, acc) == Scan(fmt[1..], rest, acc)
  {
    assert ([c] + rest)[1..] == rest;
  }

  lemma ScanYear(fmt: Format, y: string, rest: string, acc: Date)
    requires fmt != [] && fmt[0] == Field(Year) && |y| == 4 && AllDigits(y)
    ensures Scan(fmt, y + rest, acc) == Scan(fmt[1..], rest, acc.(year := DigitsValue(y)))
  {
    assert (y + rest)[..4] == y;
    assert (y + rest)[4..] == rest;
  }

  /** A `%d` or `%m` field reads a one- or two-digit number that is not
      followed by a further digit. */
  lemma ScanNumber(fmt: Format, n: string, rest: string, acc: Date)
    requires fmt != [] && (fmt[0] == Field(Day) || fmt[0] == Field(Month))
    requires 1 <= |n| <= 2 && AllDigits(n) && (|n| == 2 || rest == [] || !IsDigit(rest[0]))
    ensures Scan(fmt, n + rest, acc) == Scan(fmt[1..], rest,
      if fmt[0] == Field(Day) then acc.(day := DigitsValue(n)) else acc.(month := DigitsValue(n)))
  {
    var s := n + rest;
    assert s[..|n|] == n;
    assert s[|n|..] == rest;
    assert IsDigit(s[0]);
    if |n| == 2 { assert IsDigit(s[1]); }
    assert DigitRun(s, 0, 2) == |n|;
  }

  // ---------------------------------------------------------------------------
  // What a successful scan says about the text

  /** Every literal of the layout occurs in text the layout accepts. */
  lemma {:induction false} ScanLiteralOccurs(fmt: Format, s: string, acc: Date, j: nat)
    requires Scan(fmt, s, acc).Some? && j < |fmt| && fmt[j].Lit?
    ensures fmt[j].c in s
    decreases |fmt|
  {
    if j == 0 {
      assert s[0] == fmt[0].c;
    } else {
      var n: nat, acc': Date :| n <= |s| && Scan(fmt[1..], s[n..], acc').Some?
        && (fmt[0].Lit? ==> n == 1) by { ScanStep(fmt, s, acc); }
      ScanLiteralOccurs(fmt[1..], s[n..], acc', j - 1);
      var i :| 0 <= i < |s[n..]| && s[n..][i] == fmt[j].c;
      assert s[n + i] == fmt[j].c;
    }
  }

  /** A successful scan consumes a prefix of the text for its first token and
      scans the rest with the remaining tokens. */
  lemma ScanStep(fmt: Format, s: string, acc: Date)
    requires fmt != [] && Scan(fmt, s, acc).Some?
    ensures exists n: nat, acc': Date ::
              && n <= |s| && Scan(fmt[1..], s[n..], acc').Some?
              && (fmt[0].Lit? ==> n == 1 && s[0] == fmt[0].c)
              && (NumericField(fmt[0]) ==> 1 <= n && AllDigits(s[..n]))
  {
    match fmt[0]
    case Lit(c) =>
      assert Scan(fmt[1..], s[1..], acc).Some?;
    case Field(Year) =>
      assert Scan(fmt[1..], s[4..], acc.(year := DigitsValue(s[..4]))).Some?;
    case Field(Month) =>
      var n := DigitRun(s, 0, 2);
      RunDigits(s, 0, 2);
      assert Scan(fmt[1..], s[n..], acc.(month := DigitsValue(s[..n]))).Some?;
    case Field(Day) =>
      var n := DigitRun(s, 0, 2);
      RunDigits(s, 0, 2);
      assert Scan(fmt[1..], s[n..], acc.(day := DigitsValue(s[..n]))).Some?;
    case Field(MonthAbbrev) =>
      var k := MonthPrefix(s, MonthAbbrevs, 0).value;
      assert Scan(fmt[1..], s[|MonthAbbrevs[k]|..], acc.(month := k + 1)).Some?;
    case Field(MonthName) =>
      var k := MonthPrefix(s, MonthNames, 0).value;
      assert Scan(fmt[1..], s[|MonthNames[k]|..], acc.(month := k + 1)).Some?;
  }

  /** A layout with a numeric field only accepts text that contains a digit. */
  lemma {:induction false} ScanNeedsDigit(fmt: Format, s: string, acc: Date, j: nat)
    requires Scan(fmt, s, acc).Some? && j < |fmt| && NumericField(fmt[j])
    ensures HasDigit(s)
    decreases |fmt|
  {
    if j == 0 {
      ScanStartsWithDigit(fmt, s, acc);
      assert IsDigit(s[0]);
    } else {
      var n: nat, acc': Date :| n <= |s| && Scan(fmt[1..], s[n..], acc').Some? by { ScanStep(fmt, s, acc); }
      ScanNeedsDigit(fmt[1..], s[n..], acc', j - 1);
      DigitInSuffix(s, n);
    }
  }

  lemma DigitInSuffix(s: string, n: nat)
    requires n <= |s| && HasDigit(s[n..])
    ensures HasDigit(s)
  {
    var i :| 0 <= i < |s[n..]| && IsDigit(s[n..][i]);
    assert IsDigit(s[n + i]);
  }

  /** A layout that starts with a numeric field only accepts text that starts with a digit. */
  lemma ScanStartsWithDigit(fmt: Format, s: string, acc: Date)
    requires fmt != [] && NumericField(fmt[0]) && Scan(fmt, s, acc).Some?
    ensures s != [] && IsDigit(s[0])
  {
    ScanStep(fmt, s, acc);
  }

  /** In a layout that starts with `%d` or `%m` followed by the literal `c`,
      `c` is the second or third character of accepted text. */
  lemma ScanNumberThenLit(fmt: Format, s: string, acc: Date)
    requires |fmt| >= 2 && (fmt[0] == Field(Day) || fmt[0] == Field(Month)) && fmt[1].Lit?
    requires Scan(fmt, s, acc).Some?
    ensures (|s| > 1 && s[1] == fmt[1].c) || (|s| > 2 && s[2] == fmt[1].c)
  {
    var n := DigitRun(s, 0, 2);
    assert Scan(fmt[1..], s[n..], if fmt[0] == Field(Day) then acc.(day := DigitsValue(s[..n])) else acc.(month := DigitsValue(s[..n]))).Some?;
    assert fmt[1..][0] == fmt[1];
  }

  /** The layout at index `k` cannot accept text that lacks the literal at
      position `j` of that layout. */
  lemma MissingLiteral(k: nat, j: nat, s: string)
    requires k < |Catalogue| && j < |Catalogue[k]| && Catalogue[k][j].Lit?
    requires Catalogue[k][j].c !in s
    ensures ParseFormat(Catalogue[k], s).None?
  {
    if Scan(Catalogue[k], s, Date(0, 0, 0)).Some? {
      ScanLiteralOccurs(Catalogue[k], s, Date(0, 0, 0), j);
    }
  }

  // ---------------------------------------------------------------------------
  // Catalogue order

  /** Non-empty text is trimmed and then read. */
  lemma NormalizeText(s: string)
    requires s != []
    ensures NormalizeDate(JStr(s)) == JStr(ReadDate(Trim(s)))
  {
  }

  /** The catalogue search settles on layout `k` when `k` parses and no earlier one does. */
  lemma FirstFormatIs(t: string, k: nat, d: Date)
    requires k < |Catalogue| && ParseFormat(Catalogue[k], t) == Some(d)
    requires forall j :: 0 <= j < k ==> ParseFormat(Catalogue[j], t).None?
    ensures FirstFormat(Catalogue, t, 0) == Some((k, d))
  {
    FirstFormatOf(Catalogue, t, k, d);
  }

  /** A search through any list of layouts settles on the first that parses. */
  lemma FirstFormatOf(fmts: seq<Format>, t: string, k: nat, d: Date)
    requires k < |fmts| && ParseFormat(fmts[k], t) == Some(d)
    requires forall j :: 0 <= j < k ==> ParseFormat(fmts[j], t).None?
    ensures FirstFormat(fmts, t, 0) == Some((k, d))
  {
    var r := FirstFormat(fmts, t, 0);
    assert r.Some?;
    assert r.value.0 == k;
  }

  /** The date of the first layout that parses is the one rendered. */
  lemma FirstLayoutWins(t: string, k: nat, d: Date)
    requires k < |Catalogue| && ParseFormat(Catalogue[k], t) == Some(d)
    requires forall j :: 0 <= j < k ==> ParseFormat(Catalogue[j], t).None?
    ensures ReadDate(t) == Render(d)
  {
    FirstFormatIs(t, k, d);
  }

  /** Text that `%d/%m/%Y` accepts contains a slash, so `%Y-%m-%d` rejects it. */
  lemma SlashRejectsIsoLayout(k: nat, t: string)
    requires k == 1 || k == 2
    requires ParseFormat(Catalogue[k], t).Some?
    ensures ParseFormat(Catalogue[0], t).None?
    ensures t != []
  {
    assert Catalogue[k][1] == Lit('/');
    ScanLiteralOccurs(Catalogue[k], t, Date(0, 0, 0), 1);
    if Scan(Catalogue[0], t, Date(0, 0, 0)).Some? {
      ScanDigitsAndDashes(t);
    }
  }

  /** Text that `%d/%m/%Y` accepts is read day-first. */
  lemma DayFirstReading(t: string, d: Date)
    requires ParseFormat(Catalogue[1], t) == Some(d)
    ensures ReadDate(t) == Render(d) && t != []
  {
    SlashRejectsIsoLayout(1, t);
    SecondLayoutWins(Catalogue, t, d);
  }

  /** A search through layouts settles on the second when the first fails
      and the second parses. */
  lemma SecondLayoutWins(fmts: seq<Format>, t: string, d: Date)
    requires |fmts| >= 2 && ParseFormat(fmts[0], t).None? && ParseFormat(fmts[1], t) == Some(d)
    ensures FirstFormat(fmts, t, 0) == Some((1, d))
  {
    assert FirstFormat(fmts, t, 1) == Some((1, d));
  }

  /** Day-first beats month-first: text that `%d/%m/%Y` accepts is read
      day-first, whatever `%m/%d/%Y` would make of it. */
  lemma DayFirstWins(s: string, d: Date)
    requires ParseFormat(Catalogue[1], Trim(s)) == Some(d)
    ensures NormalizeDate(JStr(s)) == JStr(Render(d))
  {
    DayFirstReading(Trim(s), d);
    NormalizeText(s);
  }

  /** Text that `%m/%d/%Y` accepts and `%d/%m/%Y` rejects is read month-first. */
  lemma MonthFirstReading(t: string, d: Date)
    requires ParseFormat(Catalogue[1], t).None?
    requires ParseFormat(Catalogue[2], t) == Some(d)
    ensures ReadDate(t) == Render(d) && t != []
  {
    SlashRejectsIsoLayout(2, t);
    assert forall j :: 0 <= j < 2 ==> ParseFormat(Catalogue[j], t).None?;
    FirstLayoutWins(t, 2, d);
  }

  /** Month-first applies only when day-first fails. */
  lemma MonthFirstOnlyWhenDayFirstFails(s: string, d: Date)
    requires ParseFormat(Catalogue[1], Trim(s)).None?
    requires ParseFormat(Catalogue[2], Trim(s)) == Some(d)
    ensures NormalizeDate(JStr(s)) == JStr(Render(d))
  {
    MonthFirstReading(Trim(s), d);
    NormalizeText(s);
  }

  /** A numeric field, or a literal other than `x`. */
  predicate AvoidsChar(tok: Token, x: char) {
    match tok
    case Lit(c) => c != x
    case Field(f) => f == Year || f == Month || f == Day
  }

  /** Text accepted by a layout of numeric fields and literals other than
      the non-digit `x` does not contain `x`. */
  lemma {:induction false} ScanAvoids(fmt: Format, s: string, acc: Date, x: char)
    requires Scan(fmt, s, acc).Some? && !IsDigit(x)
    requires forall k :: 0 <= k < |fmt| ==> AvoidsChar(fmt[k], x)
    ensures x !in s
    decreases |fmt|
  {
    if fmt != [] {
      ScanStep(fmt, s, acc);
      var n: nat, acc': Date :|
        && n <= |s| && Scan(fmt[1..], s[n..], acc').Some?
        && (fmt[0].Lit? ==> n == 1 && s[0] == fmt[0].c)
        && (NumericField(fmt[0]) ==> 1 <= n && AllDigits(s[..n]));
      assert forall k :: 0 <= k < |fmt[1..]| ==> AvoidsChar(fmt[1..][k], x) by {
        assert forall k :: 0 <= k < |fmt[1..]| ==> fmt[1..][k] == fmt[k + 1];
      }
      ScanAvoids(fmt[1..], s[n..], acc', x);
      assert x !in s[..n] by {
        assert AvoidsChar(fmt[0], x);
        if fmt[0].Lit? {
          assert s[..n] == [s[0]];
        } else {
          assert NumericField(fmt[0]);
        }
      }
      assert s == s[..n] + s[n..];
    }
  }

  /** Text accepted by `%Y-%m-%d` holds no slash. */
  lemma ScanDigitsAndDashes(t: string)
    requires Scan(Catalogue[0], t, Date(0, 0, 0)).Some?
    ensures '/' !in t
  {
    var fmt := Catalogue[0];
    assert fmt == [Field(Year), Lit('-'), Field(Month), Lit('-'), Field(Day)];
    assert forall k :: 0 <= k < |fmt| ==> AvoidsChar(fmt[k], '/');
    ScanAvoids(fmt, t, Date(0, 0, 0), '/');
  }

  // ---------------------------------------------------------------------------
  // The canonical layout

  /** `%Y-%m-%d` reads back every valid date it renders. */
  lemma RenderRoundTrip(d: Date)
    requires ValidDate(d)
    ensures ParseFormat(Catalogue[0], Render(d)) == Some(d)
  {
    assert Pow10(2) == 100 && Pow10(4) == 10000;
    ScanIsoDigits(ZeroPad(d.year, 4), ZeroPad(d.month, 2), ZeroPad(d.day, 2));
  }

  /** A date already in canonical form is left as it is. */
  lemma CanonicalDateIsFixedPoint(d: Date)
    requires ValidDate(d)
    ensures NormalizeDate(JStr(Render(d))) == JStr(Render(d))
  {
    RenderShape(d);
    TrimNoSpace(Render(d));
    RenderRoundTrip(d);
    FirstLayoutWins(Render(d), 0, d);
    NormalizeText(Render(d));
  }

  // ---------------------------------------------------------------------------
  // Text the catalogue cannot read

  /** Every layout begins with a numeric field or has one at position 2. */
  lemma CatalogueHasNumericField(k: nat)
    requires k < |Catalogue|
    ensures NumericField(Catalogue[k][0]) || NumericField(Catalogue[k][2])
  {
  }

  /** Every layout has a literal at position 1; apart from `%Y-%m-%d`,
      `%d-%m-%Y` and `%m-%d-%Y` that literal is neither a digit nor a dash. */
  lemma CatalogueSecondToken(k: nat)
    requires k < |Catalogue|
    ensures Catalogue[k][1].Lit? && !IsDigit(Catalogue[k][1].c)
    ensures k != 0 && k != 3 && k != 4 ==> Catalogue[k][1].c != '-'
    ensures k == 0 || k == 3 || k == 4 ==> NumericField(Catalogue[k][0]) && Catalogue[k][1] == Lit('-')
    ensures k == 3 || k == 4 ==> Catalogue[k][0] == Field(Day) || Catalogue[k][0] == Field(Month)
  {
  }

  /** No layout accepts text without digits. */
  lemma NoDigitNoLayout(t: string)
    requires !HasDigit(t)
    ensures FirstFormat(Catalogue, t, 0).None?
  {
    forall k | 0 <= k < |Catalogue| ensures ParseFormat(Catalogue[k], t).None? {
      NoDigitRejected(k, t);
    }
  }

  lemma NoDigitRejected(k: nat, t: string)
    requires k < |Catalogue| && !HasDigit(t)
    ensures Scan(Catalogue[k], t, Date(0, 0, 0)).None?
  {
    CatalogueHasNumericField(k);
    if Scan(Catalogue[k], t, Date(0, 0, 0)).Some? {
      var j := if NumericField(Catalogue[k][0]) then 0 else 2;
      ScanNeedsDigit(Catalogue[k], t, Date(0, 0, 0), j);
    }
  }

  /** The fallback pattern needs a digit before its first separator. */
  lemma FallbackNeedsDigitThenSeparator(t: string)
    requires Fallback(t).Some?
    ensures exists i :: 0 <= i < |t| - 1 && IsDigit(t[i]) && IsSeparator(t[i + 1])
  {
    SearchNeedsDigitThenSeparator(t);
  }

  lemma SearchNeedsDigitThenSeparator(t: string)
    requires Search(t, 0).Some?
    ensures exists i :: 0 <= i < |t| - 1 && IsDigit(t[i]) && IsSeparator(t[i + 1])
  {
    var p := Search(t, 0).value.0;
    MatchStart(t, p);
    var i := p + MatchAt(t, p).value.first - 1;
    assert IsDigit(t[i]) && IsSeparator(t[i + 1]);
  }

  /** When no layout parses, the leftmost match of the pattern decides: its
      first group is the year if it exceeds 1000, else its third group if that
      does, with the middle group always the month; without such a match the
      text comes back as it is. */
  lemma FallbackReading(t: string, p: nat, m: Span)
    requires FirstFormat(Catalogue, t, 0).None? && Search(t, 0) == Some((p, m))
    ensures PatternAt(t, p, m.first, m.second, m.third)
    ensures var a, b, c := GroupValue(t, p, m.first), GroupValue(t, p + m.first + 1, m.second),
                           GroupValue(t, p + m.first + 2 + m.second, m.third);
            ReadDate(t) == if a > 1000 then Render(Date(a, b, c))
                           else if c > 1000 then Render(Date(c, b, a))
                           else t
  {
    ReadWithoutLayout(t);
    FallbackOfMatch(t, p, m);
    var a, b, c := GroupValue(t, p, m.first), GroupValue(t, p + m.first + 1, m.second),
                   GroupValue(t, p + m.first + 2 + m.second, m.third);
    ChosenRendering(a, b, c, t, ReadDate(t));
  }

  /** Without a layout that parses and without a match, the text comes back
      as it is. */
  lemma NoMatchReading(t: string)
    requires FirstFormat(Catalogue, t, 0).None? && Search(t, 0).None?
    ensures ReadDate(t) == t
  {
    ReadWithoutLayout(t);
  }

  /** The rendering of the year choice, or `t` when there is none. */
  lemma ChosenRendering(a: nat, b: nat, c: nat, t: string, x: string)
    requires x == match ChooseYear(a, b, c) case Some(d) => Render(d) case None => t
    ensures x == if a > 1000 then Render(Date(a, b, c))
                 else if c > 1000 then Render(Date(c, b, a))
                 else t
  {
  }

  /** Without a layout that parses, the fallback decides. */
  lemma ReadWithoutLayout(t: string)
    requires FirstFormat(Catalogue, t, 0).None?
    ensures ReadDate(t) == match Fallback(t) case Some(d) => Render(d) case None => t
    ensures Search(t, 0).None? ==> Fallback(t).None?
  {
  }

  /** Blank text is truthy and comes back as the empty string, which is
      falsy: normalizing a date twice is not always normalizing it once. */
  lemma BlankDateIsNotIdempotent(s: string)
    requires s == " "
    ensures NormalizeDate(JStr(s)) == JStr("")
    ensures NormalizeDate(NormalizeDate(JStr(s))) == JNull
  {
    assert Trim(s) == Trim(s[1..]) && s[1..] == [];
    NoDigitNoLayout([]);
    assert Search([], 0).None?;
    NormalizeText(s);
  }

  /** Text without digits comes back trimmed. */
  lemma DigitFreeTextPassesThrough(s: string)
    requires s != [] && !HasDigit(s)
    ensures NormalizeDate(JStr(s)) == JStr(Trim(s))
  {
    var t := Trim(s);
    TrimIsInnerSlice(s);
    assert !HasDigit(t);
    NoDigitNoLayout(t);
    if Fallback(t).Some? {
      FallbackNeedsDigitThenSeparator(t);
    }
    NormalizeText(s);
  }

  /** `str(True)` holds no digit, so `True` comes back as the string "True";
      `False` is falsy and gives `None`. */
  lemma BooleanDates()
    ensures NormalizeDate(JBool(true)) == JStr("True")
    ensures NormalizeDate(JBool(false)) == JNull
  {
    assert !HasDigit("True");
    TrimNoSpace("True");
    NoDigitNoLayout("True");
    if Fallback("True").Some? {
      FallbackNeedsDigitThenSeparator("True");
    }
  }

  /** Integer text (digits, possibly after a minus sign) is not a date. */
  lemma IntegerTextIsNotRead(t: string)
    requires t != [] && AllDigits(t[1..]) && (IsDigit(t[0]) || t[0] == '-')
    ensures ReadDate(t) == t
  {
    forall k | 0 <= k < |Catalogue| ensures ParseFormat(Catalogue[k], t).None? {
      IntegerTextRejected(k, t);
    }
    if Fallback(t).Some? {
      FallbackNeedsDigitThenSeparator(t);
    }
  }

  lemma IntegerTextRejected(k: nat, t: string)
    requires k < |Catalogue|
    requires t != [] && AllDigits(t[1..]) && (IsDigit(t[0]) || t[0] == '-')
    ensures Scan(Catalogue[k], t, Date(0, 0, 0)).None?
  {
    CatalogueSecondToken(k);
    IntegerTextRejectedBy(Catalogue[k], t);
  }

  /** A layout whose second token is a non-digit literal, and a dash only
      after a leading numeric field, rejects integer text. */
  lemma IntegerTextRejectedBy(fmt: Format, t: string)
    requires |fmt| >= 2 && fmt[1].Lit? && !IsDigit(fmt[1].c)
    requires fmt[1].c == '-' ==> NumericField(fmt[0])
    requires t != [] && AllDigits(t[1..]) && (IsDigit(t[0]) || t[0] == '-')
    ensures Scan(fmt, t, Date(0, 0, 0)).None?
  {
    if Scan(fmt, t, Date(0, 0, 0)).Some? {
      if t[0] == '-' && NumericField(fmt[0]) {
        ScanStartsWithDigit(fmt, t, Date(0, 0, 0));
      } else {
        ScanLiteralOccurs(fmt, t, Date(0, 0, 0), 1);
      }
    }
  }

  /** A non-zero integer is rendered with `str()` and returned unchanged. */
  lemma IntegerDatePassesThrough(i: int)
    requires i != 0
    ensures NormalizeDate(JInt(i)) == JStr(IntToString(i))
  {
    var t := IntToString(i);
    assert t != [] && AllDigits(t[1..]) && (IsDigit(t[0]) || t[0] == '-');
    IntegerTextIsTrimmed(t);
    IntegerTextIsNotRead(t);
  }

  /** Integer text holds no whitespace, so stripping leaves it alone. */
  lemma IntegerTextIsTrimmed(t: string)
    requires t != [] && AllDigits(t[1..]) && (IsDigit(t[0]) || t[0] == '-')
    ensures Trim(t) == t
  {
    assert forall k :: 0 <= k < |t| ==> !IsSpace(t[k]) by {
      forall k | 0 <= k < |t| ensures !IsSpace(t[k]) {
        if k > 0 { assert t[k] == t[1..][k - 1]; }
      }
    }
    TrimNoSpace(t);
  }

  // ---------------------------------------------------------------------------
  // Dashed digit groups and the fallback

  /** Three digit groups joined by dashes match the pattern at the start of
      the text. */
  lemma DashedGroups(t: string, a: string, b: string, c: string)
    requires DashJoined(t, a, b, c) && AllDigits(a) && AllDigits(b) && AllDigits(c)
    requires 1 <= |a| <= 4 && 1 <= |b| <= 2 && 1 <= |c| <= 4
    ensures PatternAt(t, 0, |a|, |b|, |c|)
  {
    assert t[|a| + 2 + |b|..|a| + 2 + |b| + |c|] == c;
    DigitsOfSlice(t, 0, a);
    DigitsOfSlice(t, |a| + 1, b);
    DigitsOfSlice(t, |a| + 2 + |b|, c);
  }

  lemma DigitsOfSlice(t: string, p: nat, x: string)
    requires AllDigits(x) && p + |x| <= |t| && t[p..p + |x|] == x
    ensures DigitsAt(t, p, |x|)
  {
    forall i | p <= i < p + |x| ensures IsDigit(t[i]) {
      assert t[i] == x[i - p];
    }
  }

  /** The groups are found at the start of the text. */
  lemma SearchOfDashed(t: string, a: string, b: string, c: string)
    requires DashJoined(t, a, b, c) && AllDigits(a) && AllDigits(b) && AllDigits(c)
    requires 1 <= |a| <= 4 && 1 <= |b| <= 2 && 1 <= |c| <= 4
    ensures Search(t, 0) == Some((0, Span(|a|, |b|, |c|)))
  {
    DashedGroups(t, a, b, c);
    MatchAtExact(t, 0, |a|, |b|, |c|);
  }

  /** The fallback reorders the three groups of dashed digits. */
  lemma FallbackOfDashed(t: string, a: string, b: string, c: string)
    requires DashJoined(t, a, b, c) && AllDigits(a) && AllDigits(b) && AllDigits(c)
    requires 1 <= |a| <= 4 && 1 <= |b| <= 2 && 1 <= |c| <= 4
    ensures Fallback(t) == ChooseYear(DigitsValue(a), DigitsValue(b), DigitsValue(c))
  {
    SearchOfDashed(t, a, b, c);
    FallbackOfMatch(t, 0, Span(|a|, |b|, |c|));
    assert t[|a| + 2 + |b|..|a| + 2 + |b| + |c|] == c;
    GroupValueOf(t, 0, |a|, a);
    GroupValueOf(t, |a| + 1, |b|, b);
    GroupValueOf(t, |a| + 2 + |b|, |c|, c);
  }

  /** Text made of digits and dashes only has none of the literals ` `, `/`, `.` or `,`. */
  lemma DashedLiterals(a: string, b: string, c: string)
    requires AllDigits(a) && AllDigits(b) && AllDigits(c)
    ensures var t := a + "-" + b + "-" + c;
      ' ' !in t && '/' !in t && '.' !in t && ',' !in t
  {
    var t := a + "-" + b + "-" + c;
    forall i | 0 <= i < |t| ensures IsDigit(t[i]) || t[i] == '-' {
      if i < |a| { assert t[i] == a[i]; }
      else if |a| < i < |a| + 1 + |b| { assert t[i] == b[i - |a| - 1]; }
      else if i > |a| + 1 + |b| { assert t[i] == c[i - |a| - |b| - 2]; }
    }
  }

  /** Only the three dashed layouts can accept digits-and-dashes text. */
  lemma DashedRejectedBy(k: nat, a: string, b: string, c: string)
    requires 1 <= k < |Catalogue| && k != 3 && k != 4
    requires AllDigits(a) && AllDigits(b) && AllDigits(c)
    ensures ParseFormat(Catalogue[k], a + "-" + b + "-" + c).None?
  {
    DashedLiterals(a, b, c);
    CatalogueSecondToken(k);
    MissingLiteral(k, 1, a + "-" + b + "-" + c);
  }

  /** `%d-%m-%Y` and `%m-%d-%Y` reject text whose first group has four digits. */
  lemma YearFirstRejectedBy(k: nat, y: string, b: string, c: string)
    requires k == 3 || k == 4
    requires AllDigits(y) && |y| == 4
    ensures Scan(Catalogue[k], y + "-" + b + "-" + c, Date(0, 0, 0)).None?
  {
    var t := y + "-" + b + "-" + c;
    assert t[1] == y[1] && t[2] == y[2];
    CatalogueSecondToken(k);
    if Scan(Catalogue[k], t, Date(0, 0, 0)).Some? {
      ScanNumberThenLit(Catalogue[k], t, Date(0, 0, 0));
    }
  }

  /** `%Y-%m-%d` reads four, two and two dashed digits as the date they spell,
      whether or not that date exists. */
  lemma ScanIsoDigits(y: string, m: string, dd: string)
    requires AllDigits(y) && AllDigits(m) && AllDigits(dd)
    requires |y| == 4 && |m| == 2 && |dd| == 2
    ensures Scan(Catalogue[0], y + "-" + m + "-" + dd, Date(0, 0, 0))
            == Some(Date(DigitsValue(y), DigitsValue(m), DigitsValue(dd)))
  {
    var f0 := Catalogue[0];
    var f1, f2, f3, f4 := f0[1..], f0[2..], f0[3..], f0[4..];
    assert f1 == f0[1..] && f2 == f1[1..] && f3 == f2[1..] && f4 == f3[1..] && f4[1..] == [];
    var s3 := "-" + dd;
    var s2 := m + s3;
    var s1 := "-" + s2;
    DashJoin(y, m, dd);
    var vy, vm, vd := DigitsValue(y), DigitsValue(m), DigitsValue(dd);
    calc {
      Scan(f0, y + s1, Date(0, 0, 0));
      == { ScanYear(f0, y, s1, Date(0, 0, 0)); }
      Scan(f1, s1, Date(vy, 0, 0));
      == { ScanLit(f1, '-', s2, Date(vy, 0, 0)); }
      Scan(f2, s2, Date(vy, 0, 0));
      == { ScanNumber(f2, m, s3, Date(vy, 0, 0)); }
      Scan(f3, s3, Date(vy, vm, 0));
      == { ScanLit(f3, '-', dd, Date(vy, vm, 0)); }
      Scan(f4, dd, Date(vy, vm, 0));
      == { assert dd + "" == dd; ScanNumber(f4, dd, "", Date(vy, vm, 0)); }
      Scan(f4[1..], "", Date(vy, vm, vd));
    }
  }

  /** Text of the canonical shape -- four, two and two dashed digits -- is
      returned as it is: rendered back unchanged when it names a real date,
      and otherwise passed through by the fallback (year above 1000) or left
      alone (year 1000 or less). */
  lemma IsoTextIsFixedPoint(y: string, m: string, dd: string)
    requires AllDigits(y) && AllDigits(m) && AllDigits(dd)
    requires |y| == 4 && |m| == 2 && |dd| == 2
    ensures ReadDate(y + "-" + m + "-" + dd) == y + "-" + m + "-" + dd
  {
    var t := y + "-" + m + "-" + dd;
    var d := Date(DigitsValue(y), DigitsValue(m), DigitsValue(dd));
    assert Render(d) == t by {
      PadOfDigits(y);
      PadOfDigits(m);
      PadOfDigits(dd);
    }
    if ValidDate(d) {
      ScanIsoDigits(y, m, dd);
      FirstLayoutWins(t, 0, d);
    } else {
      IsoTextRejected(y, m, dd);
      DashParts(y, m, dd);
      FallbackOfDashed(t, y, m, dd);
      GroupBound(dd);
    }
  }

  /** No layout accepts canonical-shaped text that names no real date. */
  lemma IsoTextRejected(y: string, m: string, dd: string)
    requires AllDigits(y) && AllDigits(m) && AllDigits(dd)
    requires |y| == 4 && |m| == 2 && |dd| == 2
    requires !ValidDate(Date(DigitsValue(y), DigitsValue(m), DigitsValue(dd)))
    ensures FirstFormat(Catalogue, y + "-" + m + "-" + dd, 0).None?
  {
    var t := y + "-" + m + "-" + dd;
    ScanIsoDigits(y, m, dd);
    forall k | 0 <= k < |Catalogue| ensures ParseFormat(Catalogue[k], t).None? {
      if k == 3 || k == 4 {
        YearFirstRejectedBy(k, y, m, dd);
      } else if k != 0 {
        DashedRejectedBy(k, y, m, dd);
      }
    }
  }

  /** Canonical-shaped text comes back unchanged, even when the month or day
      is out of range. */
  lemma IsoTextPassesThrough(y: string, m: string, dd: string)
    requires AllDigits(y) && AllDigits(m) && AllDigits(dd)
    requires |y| == 4 && |m| == 2 && |dd| == 2
    ensures NormalizeDate(JStr(y + "-" + m + "-" + dd)) == JStr(y + "-" + m + "-" + dd)
  {
    var t := y + "-" + m + "-" + dd;
    DashedLiterals(y, m, dd);
    TrimNoSpace(t);
    IsoTextIsFixedPoint(y, m, dd);
  }

  /** The separator of the all-numeric day/month layouts 1 to 5. */
  function GroupSeparator(k: nat): (x: char)
    requires 1 <= k <= 5
    ensures Catalogue[k][1] == Lit(x) && Catalogue[k][3] == Lit(x)
  {
    Catalogue[k][1].c
  }

  /** Whether layout `k` (1 to 5) puts the day before the month. */
  predicate DayComesFirst(k: nat)
    requires 1 <= k <= 5
  {
    Catalogue[k][0] == Field(Day)
  }

  /** The all-numeric day/month layouts (`%d/%m/%Y`, `%m/%d/%Y`,
      `%d-%m-%Y`, `%m-%d-%Y`, `%d.%m.%Y`) read one- or two-digit groups and
      a four-digit year, joined by their separator, as the date they spell,
      whether or not it exists. */
  lemma ScanDayMonthDigits(k: nat, a: string, b: string, y: string)
    requires 1 <= k <= 5
    requires AllDigits(a) && AllDigits(b) && AllDigits(y)
    requires 1 <= |a| <= 2 && 1 <= |b| <= 2 && |y| == 4
    ensures var x := GroupSeparator(k);
            Scan(Catalogue[k], a + [x] + b + [x] + y, Date(0, 0, 0))
            == Some(if DayComesFirst(k) then Date(DigitsValue(y), DigitsValue(b), DigitsValue(a))
                    else Date(DigitsValue(y), DigitsValue(a), DigitsValue(b)))
  {
    var x := GroupSeparator(k);
    var f0 := Catalogue[k];
    assert f0[0] == Field(Day) || f0[0] == Field(Month);
    assert f0[2] == Field(Day) || f0[2] == Field(Month);
    assert f0[0] != f0[2] && f0[4] == Field(Year) && |f0| == 5;
    var f1, f2, f3, f4 := f0[1..], f0[2..], f0[3..], f0[4..];
    assert f1 == f0[1..] && f2 == f1[1..] && f3 == f2[1..] && f4 == f3[1..] && f4[1..] == [];
    var s3 := [x] + y;
    var s2 := b + s3;
    var s1 := [x] + s2;
    SepJoin(a, b, y, x);
    var va, vb, vy := DigitsValue(a), DigitsValue(b), DigitsValue(y);
    var d1 := if DayComesFirst(k) then Date(0, 0, va) else Date(0, va, 0);
    var d2 := if DayComesFirst(k) then Date(0, vb, va) else Date(0, va, vb);
    calc {
      Scan(f0, a + s1, Date(0, 0, 0));
      == { ScanNumber(f0, a, s1, Date(0, 0, 0)); }
      Scan(f1, s1, d1);
      == { ScanLit(f1, x, s2, d1); }
      Scan(f2, s2, d1);
      == { ScanNumber(f2, b, s3, d1); }
      Scan(f3, s3, d2);
      == { ScanLit(f3, x, y, d2); }
      Scan(f4, y, d2);
      == { assert y + "" == y; ScanYear(f4, y, "", d2); }
      Scan(f4[1..], "", d2.(year := vy));
    }
  }

  /** When a day-first or month-first reading of dashed text names no real
      date, the fallback still reorders it year-first, with no range check:
      `45-13-2023` becomes `2023-13-45`. */
  lemma DayFirstFallback(a: string, b: string, y: string)
    requires AllDigits(a) && AllDigits(b) && AllDigits(y)
    requires 1 <= |a| <= 2 && 1 <= |b| <= 2 && |y| == 4 && DigitsValue(y) > 1000
    requires !ValidDate(Date(DigitsValue(y), DigitsValue(b), DigitsValue(a)))
    requires !ValidDate(Date(DigitsValue(y), DigitsValue(a), DigitsValue(b)))
    ensures ReadDate(a + "-" + b + "-" + y) == Render(Date(DigitsValue(y), DigitsValue(b), DigitsValue(a)))
  {
    var t := a + "-" + b + "-" + y;
    DayFirstRejected(a, b, y);
    DashParts(a, b, y);
    FallbackOfDashed(t, a, b, y);
    GroupBound(a);
  }

  /** No layout accepts dashed text whose two readings name no real date. */
  lemma DayFirstRejected(a: string, b: string, y: string)
    requires AllDigits(a) && AllDigits(b) && AllDigits(y)
    requires 1 <= |a| <= 2 && 1 <= |b| <= 2 && |y| == 4
    requires !ValidDate(Date(DigitsValue(y), DigitsValue(b), DigitsValue(a)))
    requires !ValidDate(Date(DigitsValue(y), DigitsValue(a), DigitsValue(b)))
    ensures FirstFormat(Catalogue, a + "-" + b + "-" + y, 0).None?
  {
    var t := a + "-" + b + "-" + y;
    forall k | 0 <= k < |Catalogue| ensures ParseFormat(Catalogue[k], t).None? {
      if k == 0 {
        ShortGroupRejectsYear(a, b, y);
      } else if k == 3 || k == 4 {
        DashedReadingRejected(k, a, b, y);
      } else {
        DashedRejectedBy(k, a, b, y);
      }
    }
  }

  /** `%d-%m-%Y` and `%m-%d-%Y` reject dashed text whose reading names no
      real date. */
  lemma DashedReadingRejected(k: nat, a: string, b: string, y: string)
    requires k == 3 || k == 4
    requires AllDigits(a) && AllDigits(b) && AllDigits(y)
    requires 1 <= |a| <= 2 && 1 <= |b| <= 2 && |y| == 4
    requires !ValidDate(Date(DigitsValue(y), DigitsValue(b), DigitsValue(a)))
    requires !ValidDate(Date(DigitsValue(y), DigitsValue(a), DigitsValue(b)))
    ensures ParseFormat(Catalogue[k], a + "-" + b + "-" + y).None?
  {
    assert GroupSeparator(k) == '-';
    ScanDayMonthDigits(k, a, b, y);
  }

  /** `%Y-%m-%d` needs four leading digits. */
  lemma ShortGroupRejectsYear(a: string, b: string, y: string)
    requires AllDigits(a) && 1 <= |a| <= 2
    ensures Scan(Catalogue[0], a + "-" + b + "-" + y, Date(0, 0, 0)).None?
  {
    var t := a + "-" + b + "-" + y;
    assert t[|a|] == '-';
    if |t| >= 4 {
      assert t[..4][|a|] == '-';
    }
  }

  // ---------------------------------------------------------------------------
  // Two-digit groups: the normalizer only moves the groups around

  /** Digit groups joined by a non-space separator contain no whitespace. */
  lemma GroupedText(a: string, b: string, y: string, x: char)
    requires AllDigits(a) && AllDigits(b) && AllDigits(y) && !IsSpace(x)
    ensures forall i :: 0 <= i < |a + [x] + b + [x] + y| ==> !IsSpace((a + [x] + b + [x] + y)[i])
  {
    var t := a + [x] + b + [x] + y;
    forall i | 0 <= i < |t| ensures IsDigit(t[i]) || t[i] == x {
      if i < |a| { assert t[i] == a[i]; }
      else if |a| < i < |a| + 1 + |b| { assert t[i] == b[i - |a| - 1]; }
      else if i > |a| + 1 + |b| { assert t[i] == y[i - |a| - |b| - 2]; }
    }
  }

  /** `DD/MM/YYYY` naming a real date comes out as `YYYY-MM-DD`, the same
      digits rearranged. */
  lemma DayFirstRearranged(a: string, b: string, y: string)
    requires AllDigits(a) && AllDigits(b) && AllDigits(y)
    requires |a| == 2 && |b| == 2 && |y| == 4
    requires ValidDate(Date(DigitsValue(y), DigitsValue(b), DigitsValue(a)))
    ensures NormalizeDate(JStr(a + "/" + b + "/" + y)) == JStr(y + "-" + b + "-" + a)
  {
    var t := a + "/" + b + "/" + y;
    var d := Date(DigitsValue(y), DigitsValue(b), DigitsValue(a));
    assert GroupSeparator(1) == '/' && DayComesFirst(1);
    ScanDayMonthDigits(1, a, b, y);
    GroupedText(a, b, y, '/');
    TrimNoSpace(t);
    DayFirstWins(t, d);
    PadOfDigits(y);
    PadOfDigits(b);
    PadOfDigits(a);
  }

  /** `MM/DD/YYYY` whose day-first reading names no real date, but whose
      month-first reading does, comes out as `YYYY-MM-DD`. */
  lemma MonthFirstRearranged(a: string, b: string, y: string)
    requires AllDigits(a) && AllDigits(b) && AllDigits(y)
    requires |a| == 2 && |b| == 2 && |y| == 4
    requires !ValidDate(Date(DigitsValue(y), DigitsValue(b), DigitsValue(a)))
    requires ValidDate(Date(DigitsValue(y), DigitsValue(a), DigitsValue(b)))
    ensures NormalizeDate(JStr(a + "/" + b + "/" + y)) == JStr(y + "-" + a + "-" + b)
  {
    var t := a + "/" + b + "/" + y;
    var d := Date(DigitsValue(y), DigitsValue(a), DigitsValue(b));
    assert GroupSeparator(1) == '/' && DayComesFirst(1);
    assert GroupSeparator(2) == '/' && !DayComesFirst(2);
    ScanDayMonthDigits(1, a, b, y);
    ScanDayMonthDigits(2, a, b, y);
    GroupedText(a, b, y, '/');
    TrimNoSpace(t);
    MonthFirstOnlyWhenDayFirstFails(t, d);
    PadOfDigits(y);
    PadOfDigits(a);
    PadOfDigits(b);
  }

  /** `DD-MM-YYYY` whose readings both name no real date is still turned
      around by the fallback into `YYYY-MM-DD`. */
  lemma SwappedRearranged(a: string, b: string, y: string)
    requires AllDigits(a) && AllDigits(b) && AllDigits(y)
    requires |a| == 2 && |b| == 2 && |y| == 4 && DigitsValue(y) > 1000
    requires !ValidDate(Date(DigitsValue(y), DigitsValue(b), DigitsValue(a)))
    requires !ValidDate(Date(DigitsValue(y), DigitsValue(a), DigitsValue(b)))
    ensures NormalizeDate(JStr(a + "-" + b + "-" + y)) == JStr(y + "-" + b + "-" + a)
  {
    var t := a + "-" + b + "-" + y;
    DayFirstFallback(a, b, y);
    GroupedText(a, b, y, '-');
    TrimNoSpace(t);
    NormalizeText(t);
    PadOfDigits(y);
    PadOfDigits(b);
    PadOfDigits(a);
  }

  // ---------------------------------------------------------------------------
  // Month-name layouts: `%b %d, %Y`, `%d %b %Y`, `%B %d, %Y`, `%d %B %Y`

  /** The month list a name layout draws from. */
  function MonthList(k: nat): seq<string> {
    if k == 6 || k == 7 then MonthAbbrevs else MonthNames
  }

  /** The layouts that start with the month name. */
  predicate NameComesFirst(k: nat) { k == 6 || k == 8 }

  /** Text in name layout `k`: month, day and year joined as the layout says. */
  function NamedText(k: nat, m: string, a: string, y: string): string {
    if NameComesFirst(k) then m + " " + a + ", " + y else a + " " + m + " " + y
  }

  /** The month-name field of a layout reads from the matching list. */
  predicate NameField(t: Token, names: seq<string>) {
    (t == Field(MonthAbbrev) && names == MonthAbbrevs) || (t == Field(MonthName) && names == MonthNames)
  }

  /** A `%b` or `%B` field reads a month name in any case as its number. */
  lemma ScanName(fmt: Format, names: seq<string>, m: string, rest: string, acc: Date, i: nat)
    requires fmt != [] && NameField(fmt[0], names)
    requires i < |names| && Lower(m) == names[i]
    ensures Scan(fmt, m + rest, acc) == Scan(fmt[1..], rest, acc.(month := i + 1))
  {
    var s := m + rest;
    assert s[..|m|] == m;
    MonthPrefixExact(s, names, i);
    assert s[|names[i]|..] == rest;
  }

  lemma NameFirstJoin(m: string, a: string, y: string)
    ensures m + " " + a + ", " + y == m + ([' '] + (a + ([','] + ([' '] + y))))
  {
  }

  lemma NameSecondJoin(a: string, m: string, y: string)
    ensures a + " " + m + " " + y == a + ([' '] + (m + ([' '] + y)))
  {
  }

  /** A layout of the shape `%b %d, %Y` reads the month name, the day digits
      and the year as the date they name. */
  lemma ScanNameFirstOf(fmt: Format, names: seq<string>, m: string, i: nat, a: string, y: string)
    requires |fmt| == 6 && NameField(fmt[0], names) && fmt[1] == Lit(' ') && fmt[2] == Field(Day)
    requires fmt[3] == Lit(',') && fmt[4] == Lit(' ') && fmt[5] == Field(Year)
    requires i < |names| && Lower(m) == names[i]
    requires AllDigits(a) && AllDigits(y) && 1 <= |a| <= 2 && |y| == 4
    ensures Scan(fmt, m + " " + a + ", " + y, Date(0, 0, 0))
            == Some(Date(DigitsValue(y), i + 1, DigitsValue(a)))
  {
    var f1, f2, f3, f4, f5 := fmt[1..], fmt[2..], fmt[3..], fmt[4..], fmt[5..];
    assert f2 == f1[1..] && f3 == f2[1..] && f4 == f3[1..] && f5 == f4[1..] && f5[1..] == [];
    var s4 := [' '] + y;
    var s3 := [','] + s4;
    var s2 := a + s3;
    var s1 := [' '] + s2;
    NameFirstJoin(m, a, y);
    var d1 := Date(0, i + 1, 0);
    var d2 := d1.(day := DigitsValue(a));
    calc {
      Scan(fmt, m + s1, Date(0, 0, 0));
      == { ScanName(fmt, names, m, s1, Date(0, 0, 0), i); }
      Scan(f1, s1, d1);
      == { ScanLit(f1, ' ', s2, d1); }
      Scan(f2, s2, d1);
      == { ScanNumber(f2, a, s3, d1); }
      Scan(f3, s3, d2);
      == { ScanLit(f3, ',', s4, d2); }
      Scan(f4, s4, d2);
      == { ScanLit(f4, ' ', y, d2); }
      Scan(f5, y, d2);
      == { assert y + "" == y; ScanYear(f5, y, "", d2); }
      Scan(f5[1..], "", d2.(year := DigitsValue(y)));
    }
  }

  /** A layout of the shape `%d %b %Y` reads the day digits, the month name
      and the year as the date they name. */
  lemma ScanNameSecondOf(fmt: Format, names: seq<string>, m: string, i: nat, a: string, y: string)
    requires |fmt| == 5 && fmt[0] == Field(Day) && fmt[1] == Lit(' ') && NameField(fmt[2], names)
    requires fmt[3] == Lit(' ') && fmt[4] == Field(Year)
    requires i < |names| && Lower(m) == names[i]
    requires AllDigits(a) && AllDigits(y) && 1 <= |a| <= 2 && |y| == 4
    ensures Scan(fmt, a + " " + m + " " + y, Date(0, 0, 0))
            == Some(Date(DigitsValue(y), i + 1, DigitsValue(a)))
  {
    var f1, f2, f3, f4 := fmt[1..], fmt[2..], fmt[3..], fmt[4..];
    assert f2 == f1[1..] && f3 == f2[1..] && f4 == f3[1..] && f4[1..] == [];
    var s3 := [' '] + y;
    var s2 := m + s3;
    var s1 := [' '] + s2;
    NameSecondJoin(a, m, y);
    var d1 := Date(0, 0, DigitsValue(a));
    var d2 := d1.(month := i + 1);
    calc {
      Scan(fmt, a + s1, Date(0, 0, 0));
      == { ScanNumber(fmt, a, s1, Date(0, 0, 0)); }
      Scan(f1, s1, d1);
      == { ScanLit(f1, ' ', s2, d1); }
      Scan(f2, s2, d1);
      == { ScanName(f2, names, m, s3, d1, i); }
      Scan(f3, s3, d2);
      == { ScanLit(f3, ' ', y, d2); }
      Scan(f4, y, d2);
      == { assert y + "" == y; ScanYear(f4, y, "", d2); }
      Scan(f4[1..], "", d2.(year := DigitsValue(y)));
    }
  }

  /** The four month-name layouts read a month name in any case, day digits
      and a four-digit year as the date they name. */
  lemma ScanMonthNameDigits(k: nat, m: string, i: nat, a: string, y: string)
    requires k == 6 || k == 7 || k == 8 || k == 10
    requires i < 12 && Lower(m) == MonthList(k)[i]
    requires AllDigits(a) && AllDigits(y) && 1 <= |a| <= 2 && |y| == 4
    ensures Scan(Catalogue[k], NamedText(k, m, a, y), Date(0, 0, 0))
            == Some(Date(DigitsValue(y), i + 1, DigitsValue(a)))
  {
    if NameComesFirst(k) {
      ScanNameFirstOf(Catalogue[k], MonthList(k), m, i, a, y);
    } else {
      ScanNameSecondOf(Catalogue[k], MonthList(k), m, i, a, y);
    }
  }

  /** No month abbreviation starts with a digit. */
  lemma AbbrevStartsWithLetter(m: string, i: nat)
    requires i < 12 && Lower(m) == MonthAbbrevs[i]
    ensures m != [] && !IsDigit(m[0]) && !IsSpace(m[0])
  {
    assert 'a' <= MonthAbbrevs[i][0] <= 'z';
    assert LowerChar(m[0]) == MonthAbbrevs[i][0];
  }

  /** Rendering the date that digit groups spell gives the groups back. */
  lemma RenderOfDigits(y: string, mm: string, dd: string)
    requires AllDigits(y) && AllDigits(mm) && AllDigits(dd)
    requires |y| == 4 && |mm| == 2 && |dd| == 2
    ensures Render(Date(DigitsValue(y), DigitsValue(mm), DigitsValue(dd))) == y + "-" + mm + "-" + dd
  {
    PadOfDigits(y);
    PadOfDigits(mm);
    PadOfDigits(dd);
  }

  /** Text that does not start with a digit fails the six layouts that
      start with a number. */
  lemma LeadingNonDigitRejected(t: string)
    requires t == [] || !IsDigit(t[0])
    ensures forall j :: 0 <= j < 6 ==> ParseFormat(Catalogue[j], t).None?
  {
    forall j | 0 <= j < 6 ensures ParseFormat(Catalogue[j], t).None? {
      assert NumericField(Catalogue[j][0]);
      if Scan(Catalogue[j], t, Date(0, 0, 0)).Some? {
        ScanStartsWithDigit(Catalogue[j], t, Date(0, 0, 0));
      }
    }
  }

  /** `Mon D, YYYY` naming a real date is read by `%b %d, %Y`: every
      earlier layout starts with a number. */
  lemma AbbrevFirstReading(m: string, i: nat, a: string, y: string)
    requires i < 12 && Lower(m) == MonthAbbrevs[i]
    requires AllDigits(a) && AllDigits(y) && 1 <= |a| <= 2 && |y| == 4
    requires ValidDate(Date(DigitsValue(y), i + 1, DigitsValue(a)))
    ensures NormalizeDate(JStr(m + " " + a + ", " + y))
            == JStr(Render(Date(DigitsValue(y), i + 1, DigitsValue(a))))
  {
    var t := m + " " + a + ", " + y;
    var d := Date(DigitsValue(y), i + 1, DigitsValue(a));
    assert ParseFormat(Catalogue[6], t) == Some(d) by {
      ScanNameFirstOf(Catalogue[6], MonthAbbrevs, m, i, a, y);
    }
    AbbrevStartsWithLetter(m, i);
    assert t != [] && t[0] == m[0] && t[|t| - 1] == y[3];
    assert Trim(t) == t;
    LeadingNonDigitRejected(t);
    FirstLayoutWins(t, 6, d);
    NormalizeText(t);
  }
}
