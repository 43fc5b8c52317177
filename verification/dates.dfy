/**
 The date normalizer: turns a date given as text (or an integer) in one of
 many layouts into `YYYY-MM-DD`. An ordered catalogue of `strptime` layouts is
 tried first; then a search for three separated digit groups; otherwise the
 trimmed text is passed through.
 */
module Dates {
  import opened Wrappers
  import opened Text
  import opened Json

  datatype Date = Date(year: nat, month: nat, day: nat)

  /** Gregorian leap years. */
  predicate IsLeapYear(y: nat) {
    y % 4 == 0 && (y % 100 != 0 || y % 400 == 0)
  }

  function DaysInMonth(y: nat, m: nat): nat
    requires 1 <= m <= 12
  {
    if m == 2 then (if IsLeapYear(y) then 29 else 28)
    else if m == 4 || m == 6 || m == 9 || m == 11 then 30
    else 31
  }

  /** The dates Python's `datetime` accepts. */
  predicate ValidDate(d: Date) {
    1 <= d.year <= 9999 && 1 <= d.month <= 12 && 1 <= d.day <= DaysInMonth(d.year, d.month)
  }

  // ---------------------------------------------------------------------------
  // The format catalogue

  /** `strptime` directives used by the catalogue: `%d`, `%m`, `%Y`, `%b`, `%B`. */
  datatype Directive = Day | Month | Year | MonthAbbrev | MonthName

  datatype Token = Lit(c: char) | Field(directive: Directive)

  type Format = seq<Token>

  /** The catalogue, in the order it is tried. */
  const Catalogue: seq<Format> := [
    [Field(Year), Lit('-'), Field(Month), Lit('-'), Field(Day)],                   // %Y-%m-%d
    [Field(Day), Lit('/'), Field(Month), Lit('/'), Field(Year)],                   // %d/%m/%Y
    [Field(Month), Lit('/'), Field(Day), Lit('/'), Field(Year)],                   // %m/%d/%Y
    [Field(Day), Lit('-'), Field(Month), Lit('-'), Field(Year)],                   // %d-%m-%Y
    [Field(Month), Lit('-'), Field(Day), Lit('-'), Field(Year)],                   // %m-%d-%Y
    [Field(Day), Lit('.'), Field(Month), Lit('.'), Field(Year)],                   // %d.%m.%Y
    [Field(MonthAbbrev), Lit(' '), Field(Day), Lit(','), Lit(' '), Field(Year)],   // %b %d, %Y
    [Field(Day), Lit(' '), Field(MonthAbbrev), Lit(' '), Field(Year)],             // %d %b %Y
    [Field(MonthName), Lit(' '), Field(Day), Lit(','), Lit(' '), Field(Year)],     // %B %d, %Y
    [Field(Year), Lit('/'), Field(Month), Lit('/'), Field(Day)],                   // %Y/%m/%d
    [Field(Day), Lit(' '), Field(MonthName), Lit(' '), Field(Year)]                // %d %B %Y
  ]

  const MonthAbbrevs: seq<string> :=
    ["jan", "feb", "mar", "apr", "may", "jun", "jul", "aug", "sep", "oct", "nov", "dec"]

  const MonthNames: seq<string> :=
    ["january", "february", "march", "april", "may", "june", "july",
     "august", "september", "october", "november", "december"]

  /** `s` holds `n` digits from position `p` on. */
  predicate DigitsAt(s: string, p: nat, n: nat) {
    p + n <= |s| && forall i :: p <= i < p + n ==> IsDigit(s[i])
  }

  /** The number of consecutive digits in `s` from position `p` on, at most `max`. */
  function DigitRun(s: string, p: nat, max: nat): (n: nat)
    requires p <= |s|
    ensures n <= max && p + n <= |s|
    decreases max
  {
    if max == 0 || p == |s| || !IsDigit(s[p]) then 0
    else 1 + DigitRun(s, p + 1, max - 1)
  }

  /** The run is made of digits and stops at a non-digit, the end or the cap. */
  lemma {:induction false} RunDigits(s: string, p: nat, max: nat)
    requires p <= |s|
    ensures var n := DigitRun(s, p, max);
      DigitsAt(s, p, n) && (n < max && p + n < |s| ==> !IsDigit(s[p + n]))
    decreases max
  {
    if max > 0 && p < |s| && IsDigit(s[p]) {
      RunDigits(s, p + 1, max - 1);
    }
  }

  /** A run of exactly `l` digits, followed by a non-digit or the end or
      reaching the cap, is what `DigitRun` counts. */
  lemma {:induction false} RunLength(s: string, p: nat, max: nat, l: nat)
    requires l <= max && DigitsAt(s, p, l)
    requires l == max || p + l == |s| || !IsDigit(s[p + l])
    ensures DigitRun(s, p, max) == l
    decreases l
  {
    if l > 0 {
      RunLength(s, p + 1, max - 1, l - 1);
    }
  }

  /** `name` matches the start of `s`, ignoring the case of `s`. */
  predicate NamePrefix(s: string, name: string) {
    |name| <= |s| && Lower(s[..|name|]) == name
  }

  /** The first month name, from index `i` on, that starts `s`. */
  function MonthPrefix(s: string, names: seq<string>, i: nat): (r: Option<nat>)
    requires i <= |names|
    ensures r.Some? ==> i <= r.value < |names| && NamePrefix(s, names[r.value])
                        && forall k :: i <= k < r.value ==> !NamePrefix(s, names[k])
    ensures r.None? ==> forall k :: i <= k < |names| ==> !NamePrefix(s, names[k])
    decreases |names| - i
  {
    if i == |names| then None
    else if NamePrefix(s, names[i]) then Some(i)
    else MonthPrefix(s, names, i + 1)
  }

  /** Every full month name begins with its abbreviation. */
  lemma NamesExtendAbbrevs()
    ensures |MonthNames| == |MonthAbbrevs| == 12
    ensures forall k :: 0 <= k < 12 ==> |MonthAbbrevs[k]| == 3 <= |MonthNames[k]|
    ensures forall k :: 0 <= k < 12 ==> MonthNames[k][..3] == MonthAbbrevs[k]
  {
  }

  /** The twelve abbreviations are pairwise distinct. */
  lemma AbbrevsDistinct(i: nat, j: nat)
    requires i < 12 && j < 12 && MonthAbbrevs[i] == MonthAbbrevs[j]
    ensures i == j
  {
    var a := MonthAbbrevs;
    assert a[i][0] == a[j][0] && a[i][1] == a[j][1] && a[i][2] == a[j][2];
  }

  /** At most one month name of either list starts any text: the names
      differ in their first three letters. */
  lemma NamePrefixUnique(s: string, names: seq<string>, i: nat, j: nat)
    requires names == MonthAbbrevs || names == MonthNames
    requires i < |names| && j < |names|
    requires NamePrefix(s, names[i]) && NamePrefix(s, names[j])
    ensures i == j
  {
    NamesExtendAbbrevs();
    var ni, nj := names[i], names[j];
    assert Lower(s[..3]) == ni[..3] by {
      assert forall k :: 0 <= k < 3 ==> Lower(s[..3])[k] == Lower(s[..|ni|])[k];
    }
    assert Lower(s[..3]) == nj[..3] by {
      assert forall k :: 0 <= k < 3 ==> Lower(s[..3])[k] == Lower(s[..|nj|])[k];
    }
    assert MonthAbbrevs[i] == MonthAbbrevs[j] by {
      if names == MonthAbbrevs {
        assert ni[..3] == ni && nj[..3] == nj;
      }
    }
    AbbrevsDistinct(i, j);
  }

  /** The order of the month lists does not matter: the search reports a
      name exactly when that name starts the text. */
  lemma MonthPrefixExact(s: string, names: seq<string>, k: nat)
    requires names == MonthAbbrevs || names == MonthNames
    requires k < |names|
    ensures MonthPrefix(s, names, 0) == Some(k) <==> NamePrefix(s, names[k])
  {
    var r := MonthPrefix(s, names, 0);
    if NamePrefix(s, names[k]) {
      assert r.Some?;
      NamePrefixUnique(s, names, k, r.value);
    }
  }

  /** Matches `s` against `fmt` from left to right, recording each field in
      `acc`; the whole of `s` must be consumed. A `%d` or `%m` field takes two
      digits when two are present and one otherwise: every such field in the
      catalogue is followed by a non-digit literal or by the end, so this
      agrees with the alternation `strptime` uses. `%Y` takes exactly four
      digits. Month names are matched case-insensitively. */
  function Scan(fmt: Format, s: string, acc: Date): Option<Date>
    decreases |fmt|
  {
    if fmt == [] then (if s == [] then Some(acc) else None)
    else
      match fmt[0]
      case Lit(c) =>
        if s != [] && s[0] == c then Scan(fmt[1..], s[1..], acc) else None
      case Field(Year) =>
        if |s| >= 4 && AllDigits(s[..4]) then Scan(fmt[1..], s[4..], acc.(year := DigitsValue(s[..4])))
        else None
      case Field(Month) =>
        var n := DigitRun(s, 0, 2);
        RunDigits(s, 0, 2);
        if n == 0 then None else Scan(fmt[1..], s[n..], acc.(month := DigitsValue(s[..n])))
      case Field(Day) =>
        var n := DigitRun(s, 0, 2);
        RunDigits(s, 0, 2);
        if n == 0 then None else Scan(fmt[1..], s[n..], acc.(day := DigitsValue(s[..n])))
      case Field(MonthAbbrev) =>
        (match MonthPrefix(s, MonthAbbrevs, 0)
         case None => None
         case Some(k) => Scan(fmt[1..], s[|MonthAbbrevs[k]|..], acc.(month := k + 1)))
      case Field(MonthName) =>
        (match MonthPrefix(s, MonthNames, 0)
         case None => None
         case Some(k) => Scan(fmt[1..], s[|MonthNames[k]|..], acc.(month := k + 1)))
  }

  /** `datetime.strptime(s, fmt)`: a full match that names a real calendar date. */
  function ParseFormat(fmt: Format, s: string): (r: Option<Date>)
    ensures r.Some? ==> ValidDate(r.value)
  {
    match Scan(fmt, s, Date(0, 0, 0))
    case Some(d) => if ValidDate(d) then Some(d) else None
    case None => None
  }

  /** The first layout of `fmts`, from index `i` on, that parses `s`. */
  function FirstFormat(fmts: seq<Format>, s: string, i: nat): (r: Option<(nat, Date)>)
    requires i <= |fmts|
    ensures r.Some? ==> i <= r.value.0 < |fmts|
                        && ParseFormat(fmts[r.value.0], s) == Some(r.value.1)
                        && forall j :: i <= j < r.value.0 ==> ParseFormat(fmts[j], s).None?
    ensures r.None? ==> forall j :: i <= j < |fmts| ==> ParseFormat(fmts[j], s).None?
    decreases |fmts| - i
  {
    if i == |fmts| then None
    else
      match ParseFormat(fmts[i], s)
      case Some(d) => Some((i, d))
      case None => FirstFormat(fmts, s, i + 1)
  }

  /** `strftime('%Y-%m-%d')`. */
  function Render(d: Date): string {
    ZeroPad(d.year, 4) + "-" + ZeroPad(d.month, 2) + "-" + ZeroPad(d.day, 2)
  }

  // ---------------------------------------------------------------------------
  // The regular-expression fallback (\d{1,4})[/.-](\d{1,2})[/.-](\d{1,4})

  predicate IsSeparator(c: char) { c == '/' || c == '.' || c == '-' }

  /** The lengths of the three digit groups of a match. */
  datatype Span = Span(first: nat, second: nat, third: nat)

  /** The pattern matches at position `p` with groups of lengths `l1`, `l2`, `l3`. */
  predicate PatternAt(s: string, p: nat, l1: nat, l2: nat, l3: nat) {
    && 1 <= l1 <= 4 && 1 <= l2 <= 2 && 1 <= l3 <= 4
    && DigitsAt(s, p, l1)
    && p + l1 < |s| && IsSeparator(s[p + l1])
    && DigitsAt(s, p + l1 + 1, l2)
    && p + l1 + 1 + l2 < |s| && IsSeparator(s[p + l1 + 1 + l2])
    && DigitsAt(s, p + l1 + 2 + l2, l3)
  }

  /** The match the regular-expression engine reports at position `p`, if any.
      The first two groups are fixed by the separators that follow them; the
      last group is greedy. */
  function MatchAt(s: string, p: nat): Option<Span>
    requires p <= |s|
  {
    var l1 := DigitRun(s, p, 4);
    if l1 == 0 || p + l1 == |s| || !IsSeparator(s[p + l1]) then None
    else
      var q := p + l1 + 1;
      var l2 := DigitRun(s, q, 2);
      if l2 == 0 || q + l2 == |s| || !IsSeparator(s[q + l2]) then None
      else
        var l3 := DigitRun(s, q + l2 + 1, 4);
        if l3 == 0 then None else Some(Span(l1, l2, l3))
  }

  /** What `MatchAt` reports is a match of the pattern. */
  lemma MatchAtSound(s: string, p: nat)
    requires p <= |s| && MatchAt(s, p).Some?
    ensures var m := MatchAt(s, p).value; PatternAt(s, p, m.first, m.second, m.third)
  {
    var l1 := DigitRun(s, p, 4);
    var l2 := DigitRun(s, p + l1 + 1, 2);
    var l3 := DigitRun(s, p + l1 + 2 + l2, 4);
    assert MatchAt(s, p).value == Span(l1, l2, l3);
    assert DigitsAt(s, p, l1) by {
      RunDigits(s, p, 4);
    }
    assert DigitsAt(s, p + l1 + 1, l2) by {
      RunDigits(s, p + l1 + 1, 2);
    }
    assert DigitsAt(s, p + l1 + 2 + l2, l3) by {
      RunDigits(s, p + l1 + 2 + l2, 4);
    }
  }

  /** The match is the only one at `p` but for a shorter last group: the
      first two groups end at their separators and the last is greedy. */
  lemma MatchAtGreedy(s: string, p: nat, l1: nat, l2: nat, l3: nat)
    requires p <= |s| && MatchAt(s, p).Some? && PatternAt(s, p, l1, l2, l3)
    ensures var m := MatchAt(s, p).value; l1 == m.first && l2 == m.second && l3 <= m.third
  {
    MatchAtSound(s, p);
    RunDigits(s, p + l1 + l2 + 2, 4);
  }

  /** Whenever the pattern matches at `p`, `MatchAt` reports a match there. */
  lemma MatchAtComplete(s: string, p: nat, l1: nat, l2: nat, l3: nat)
    requires p <= |s| && PatternAt(s, p, l1, l2, l3)
    ensures MatchAt(s, p).Some?
  {
    RunLength(s, p, 4, l1);
    RunLength(s, p + l1 + 1, 2, l2);
  }

  /** A match whose last group ends at the end of the text, at a non-digit
      or after four digits is reported with exactly those groups. */
  lemma MatchAtExact(s: string, p: nat, l1: nat, l2: nat, l3: nat)
    requires p <= |s| && PatternAt(s, p, l1, l2, l3)
    requires var e := p + l1 + 2 + l2 + l3; l3 == 4 || e == |s| || !IsDigit(s[e])
    ensures MatchAt(s, p) == Some(Span(l1, l2, l3))
  {
    RunLength(s, p, 4, l1);
    RunLength(s, p + l1 + 1, 2, l2);
    RunLength(s, p + l1 + 2 + l2, 4, l3);
    MatchAtOfRuns(s, p, l1, l2, l3);
  }

  lemma MatchAtOfRuns(s: string, p: nat, l1: nat, l2: nat, l3: nat)
    requires p <= |s| && 1 <= l1 && DigitRun(s, p, 4) == l1 && p + l1 < |s| && IsSeparator(s[p + l1])
    requires 1 <= l2 && DigitRun(s, p + l1 + 1, 2) == l2 && p + l1 + 1 + l2 < |s| && IsSeparator(s[p + l1 + 1 + l2])
    requires 1 <= l3 && DigitRun(s, p + l1 + 2 + l2, 4) == l3
    ensures MatchAt(s, p) == Some(Span(l1, l2, l3))
  {
  }

  /** `re.search`: the leftmost position from `p` on where the pattern matches. */
  function Search(s: string, p: nat): (r: Option<(nat, Span)>)
    requires p <= |s|
    ensures r.Some? ==> p <= r.value.0 <= |s| && MatchAt(s, r.value.0) == Some(r.value.1)
    decreases |s| - p
  {
    var here := MatchAt(s, p);
    if here.Some? then Some((p, here.value))
    else if p == |s| then None
    else
      Search(s, p + 1)
  }

  /** The search reports the leftmost match: no position between `p` and the
      one reported matches, and when nothing is reported nothing matches. */
  lemma {:induction false} SearchIsLeftmost(s: string, p: nat)
    requires p <= |s|
    ensures Search(s, p).Some? ==> forall q :: p <= q < Search(s, p).value.0 ==> MatchAt(s, q).None?
    ensures Search(s, p).None? ==> forall q :: p <= q <= |s| ==> MatchAt(s, q).None?
    decreases |s| - p
  {
    if MatchAt(s, p).None? && p < |s| {
      SearchIsLeftmost(s, p + 1);
    }
  }

  /** The text of a group: the `n` digits from position `p` on. */
  function Digits(s: string, p: nat, n: nat): (r: string)
    requires DigitsAt(s, p, n)
    ensures |r| == n && AllDigits(r)
  {
    s[p..p + n]
  }

  /** The value of the group of `n` digits at position `p`. */
  function GroupValue(s: string, p: nat, n: nat): (v: nat)
    requires DigitsAt(s, p, n)
    ensures n <= 2 ==> v < 100
    ensures n <= 4 ==> v < 10000
  {
    var x := Digits(s, p, n);
    GroupBound(x);
    DigitsValue(x)
  }

  lemma GroupBound(x: string)
    requires AllDigits(x)
    ensures |x| <= 2 ==> DigitsValue(x) < 100
    ensures |x| <= 4 ==> DigitsValue(x) < 10000
  {
    assert Pow10(2) == 100 && Pow10(4) == 10000;
    if |x| <= 2 { DigitsBound(x, 2); }
    if |x| <= 4 { DigitsBound(x, 4); }
  }

  lemma GroupValueOf(s: string, p: nat, n: nat, x: string)
    requires DigitsAt(s, p, n) && Digits(s, p, n) == x
    ensures AllDigits(x) && GroupValue(s, p, n) == DigitsValue(x)
  {
  }

  /** The year is the first group if it exceeds 1000, else the third if that
      does; each part is zero-padded. No range check is made. */
  function ChooseYear(a: nat, b: nat, c: nat): (r: Option<Date>)
    ensures r.Some? ==> r.value.year > 1000 && r.value.month == b
    ensures r.Some? <==> a > 1000 || c > 1000
  {
    if a > 1000 then Some(Date(a, b, c))
    else if c > 1000 then Some(Date(c, b, a))
    else None
  }

  /** The fallback: the groups of the leftmost match, reordered with the
      year first. The result is rendered like a parsed date, but it is not
      checked to be one. */
  function Fallback(t: string): Option<Date> {
    match Search(t, 0)
    case None => None
    case Some((p, m)) =>
      MatchAtSound(t, p);
      ChooseYear(GroupValue(t, p, m.first), GroupValue(t, p + m.first + 1, m.second),
                 GroupValue(t, p + m.first + 2 + m.second, m.third))
  }

  /** The fallback's result in terms of the leftmost match. */
  lemma FallbackOfMatch(t: string, p: nat, m: Span)
    requires Search(t, 0) == Some((p, m))
    ensures PatternAt(t, p, m.first, m.second, m.third)
    ensures Fallback(t) == ChooseYear(GroupValue(t, p, m.first), GroupValue(t, p + m.first + 1, m.second),
                                      GroupValue(t, p + m.first + 2 + m.second, m.third))
  {
    MatchAtSound(t, p);
  }

  // ---------------------------------------------------------------------------
  // normalize_date

  /** The values the normalizer converts: truthy strings and integers (a
      boolean is an integer in Python). */
  predicate IsDateInput(v: Json) {
    Truthy(v) && (v.JStr? || v.JInt? || v.JBool?)
  }

  /** Python's `str()` of a string, an integer or a boolean. */
  function DateText(v: Json): string
    requires v.JStr? || v.JInt? || v.JBool?
  {
    match v
    case JStr(s) => s
    case JInt(i) => IntToString(i)
    case JBool(b) => if b then "True" else "False"
  }

  /** Four digits, a dash, two digits, a dash, two to four digits. */
  predicate IsoShaped(s: string) {
    && 10 <= |s| <= 12
    && AllDigits(s[..4]) && s[4] == '-' && AllDigits(s[5..7]) && s[7] == '-' && AllDigits(s[8..])
  }

  /** The text branch of `normalize_date`: the first catalogue layout that
      parses, else the fallback, else the text itself. */
  function ReadDate(t: string): (r: string)
    ensures r == t || IsoShaped(r)
  {
    match FirstFormat(Catalogue, t, 0)
    case Some((_, d)) =>
      RenderShape(d);
      Render(d)
    case None =>
      match Fallback(t)
      case Some(d) =>
        FallbackShape(t);
        Render(d)
      case None => t
  }

  /** `normalize_date`: `None` for falsy values and for values that are
      neither text nor integers, otherwise a string. */
  function NormalizeDate(v: Json): (r: Json)
    ensures r.JNull? <==> !IsDateInput(v)
    ensures r.JNull? || r.JStr?
    ensures r.JStr? ==> r.s == Trim(DateText(v)) || IsoShaped(r.s)
  {
    if !IsDateInput(v) then JNull else JStr(ReadDate(Trim(DateText(v))))
  }

  lemma JoinShape(a: string, b: string, c: string)
    requires AllDigits(a) && AllDigits(b) && AllDigits(c)
    requires |a| == 4 && |b| == 2 && 2 <= |c| <= 4
    ensures IsoShaped(a + "-" + b + "-" + c)
  {
    var r := a + "-" + b + "-" + c;
    assert r[..4] == a;
    assert r[5..7] == b;
    assert r[8..] == c;
  }

  /** A year of at most four digits, a month of at most two and a day of at
      most four render into ISO-shaped text. */
  lemma RenderShape(d: Date)
    requires d.year < 10000 && d.month < 100 && d.day < 10000
    ensures IsoShaped(Render(d))
  {
    assert Pow10(2) == 100 && Pow10(4) == 10000;
    ShortestRendering(d.day, 4);
    JoinShape(ZeroPad(d.year, 4), ZeroPad(d.month, 2), ZeroPad(d.day, 2));
  }

  /** A match starts with a digit that is followed, at most four places
      later, by a separator. */
  lemma MatchStart(s: string, p: nat)
    requires p <= |s| && MatchAt(s, p).Some?
    ensures var l1 := MatchAt(s, p).value.first;
      1 <= l1 && p + l1 < |s| && IsDigit(s[p + l1 - 1]) && IsSeparator(s[p + l1])
  {
    MatchAtSound(s, p);
  }

  lemma FallbackShape(t: string)
    requires Fallback(t).Some?
    ensures IsoShaped(Render(Fallback(t).value))
  {
    var (p, m) := Search(t, 0).value;
    FallbackOfMatch(t, p, m);
    RenderShape(Fallback(t).value);
  }
}
