# Invoice normalizer, modelled in Dafny

This project models the normalization engine of an invoice-processing
service (`invoice_normalizer.py`). The engine takes decoded JSON invoice
data and cleans it up in four steps:

- **Key mapper** (`normalize_keys`). Each field name is looked up in a fixed
  alias table (`KEY_MAPPINGS`); a name the table does not know is
  lower-cased. A later field wins over an earlier one that maps to the same
  name.
- **Date normalizer** (`normalize_date`). Falsy values and values that are
  neither text nor integers become `None`. Otherwise the value is turned into
  stripped text, and three readings are tried in order:
  - an ordered catalogue of eleven `strptime` layouts, rendered as
    `YYYY-MM-DD`;
  - the leftmost match of `(\d{1,4})[/.-](\d{1,2})[/.-](\d{1,4})`, reordered
    so the year comes first;
  - failing both, the stripped text itself.
- **Amount normalizer** (`normalize_amount`).
  - `None` stays `None`, and numbers become floats.
  - Other values are turned into stripped text; blank text gives `None`.
  - Every character but digits, `.` and `,` is deleted, and a comma/period
    rule settles the decimal mark.
  - `float()` then reads the result; when it cannot, the original value
    comes back.
- **Record processor** (`process_invoice`) and **dispatcher**
  (`normalize_invoice_data`). The processor renames the keys, then
  normalizes `invoice_date` and `due_date` as dates and `amount`, `tax` and
  `subtotal` as amounts. The dispatcher processes a list element by element
  and a dict once, and returns anything else as it came.

The model is functional throughout. It is organised as follows:

| file | module | contents |
|---|---|---|
| `wrappers.dfy` | `Wrappers` | `Option` and `Result` |
| `json.dfy` | `Json` | JSON values, exact decimals, Python truthiness |
| `text.dfy` | `Text` | ASCII helpers: digits and their values, `str(int)`, zero padding, `strip()`, `lower()` |
| `keys.dfy` | `Keys` | the alias table and the key mapper |
| `dates.dfy` | `Dates` | the layout catalogue, the scanner, the regular-expression search and `normalize_date` |
| `date_lemmas.dfy` | `DateLemmas` | properties of the date normalizer |
| `date_examples.dfy` | `DateExamples` | worked date inputs, derived from the properties |
| `amounts.dfy` | `Amounts` | cleaning, the decimal-mark rule, `float()` and `normalize_amount`, with their properties |
| `amount_examples.dfy` | `AmountExamples` | worked amount inputs, derived from the properties |
| `invoice.dfy` | `Invoice` | `process_invoice` and `normalize_invoice_data` |

Representation choices:

- An input record is the sequence of its dict's `items()` in iteration
  order, so "the last write wins" can be stated. A processed record is a
  `map<string, Json>`.
- A float is an exact `Decimal(mantissa, scale)`, meaning
  mantissa / 10^scale.
- Python's `bool` is an `int`. `normalize_date(True)` is therefore `"True"`
  and `normalize_date(False)` is `None`, while `normalize_amount(True)` is
  `1.0`.
- `str()` of a list or a dict is a function parameter `show`.
- `process_invoice` raises on a list element that is not a dict, because it
  has no `items()`. The model returns the error `NotAnObject(index)` for the
  first such element.
- The five `if` statements of `process_invoice` touch five distinct names.
  They are modelled as one pass over the renamed record that normalizes each
  field as its name says.

The code is followed where its comments say otherwise. The comment at
invoice_normalizer.py:113 claims to handle `EUR 1.234,56`. The code at
invoice_normalizer.py:119-121 takes any text with both a comma and a period
to use the comma as the thousands separator. So `1.234,56` is read as
1.23456, not as 1234.56. `AmountExamples.ContinentalExample` and
`AmountExamples.PointBeforeComma` state what the code does.

## Model

| member | source | states |
|---|---|---|
| Keys.NormalizeKeys | invoice_normalizer.py:44-51 | A name is in the result exactly when some input field's name maps to it: through the table if listed, else lower-cased. Its value is that of the last such field in iteration order. |
| Keys.NormalizeKeysSize | invoice_normalizer.py:44-51 | The result has at most as many names as the input has fields. |
| Keys.RenamedStep | invoice_normalizer.py:47-50 | One more field adds exactly its canonical name to the names present. |
| Keys.LastWriteStep | invoice_normalizer.py:47-50 | Storing one more field keeps every other name's last-written value and makes that field's value the last for its name. |
| Keys.TableTargetsAreCanonical | invoice_normalizer.py:13-41 | Every alias maps to `invoice_number`, `invoice_date`, `amount` or `customer`. |
| Keys.CanonicalNamesAreNotAliases | invoice_normalizer.py:13-41 | None of the seven canonical names is a key of the alias table. |
| Keys.CanonicalNameIsLowerCase | invoice_normalizer.py:49 | Canonical names contain no upper-case letter, so lower-casing leaves them alone. |
| Keys.CanonicalNamesAreFixedPoints | invoice_normalizer.py:13-49 | Every canonical name maps to itself. |
| Keys.MappingIsNotIdempotent | invoice_normalizer.py:13-49 | `DATE` maps to `date`, and `date` maps on to `invoice_date`, so mapping twice differs from mapping once. |
| Keys.UnknownKeyIsLowerCased | invoice_normalizer.py:49 | A name outside the table, `Notes`, becomes `notes`. |
| Keys.CanonicalRecordIsUnchanged | invoice_normalizer.py:44-51 | A record with distinct canonical names keeps exactly its names and values. |
| Text.IntToString | invoice_normalizer.py:60 | `str()` of an integer is digits spelling its absolute value, behind a minus sign when it is negative. |
| Text.NatToString | invoice_normalizer.py:60 | `str()` of a natural number is its shortest digit string: its value is the number, with no leading zero. |
| Text.ZeroPad | invoice_normalizer.py:86 | The zero-padded rendering has the number's value and at least the width; exactly the width when the number fits, and no padding at all (the plain `str()`) when it does not. |
| Text.PadOfDigits | invoice_normalizer.py:86 | Padding the value of a digit string to its own length gives the string back. |
| Text.LowerFixedPoint | invoice_normalizer.py:49 | `lower()` leaves a name unchanged exactly when it has no upper-case letter. |
| Text.TrimIsInnerSlice | invoice_normalizer.py:60 | `strip()` returns a slice of the text with only whitespace outside it. |
| Text.TrimEmpty | invoice_normalizer.py:108-110 | `strip()` gives empty text exactly when every character is whitespace. |
| Dates.MonthPrefix | invoice_normalizer.py:66-67 | `%b`/`%B` match the first month name that starts the text, case-insensitively; none earlier in the list matches, and None means none matches. |
| Dates.NamePrefixUnique | invoice_normalizer.py:66-67 | At most one abbreviation, and at most one full month name, starts any text. |
| Dates.MonthPrefixExact | invoice_normalizer.py:66-67 | `%b`/`%B` report month k exactly when k's name starts the text, so the order of the month lists does not matter. |
| Dates.ParseFormat | invoice_normalizer.py:72 | A layout yields only dates that exist in the calendar. |
| Dates.FirstFormat | invoice_normalizer.py:70-74 | The search yields the first layout that parses and its date, with every earlier layout failing; it yields nothing only when every layout fails. |
| Dates.MatchAtSound | invoice_normalizer.py:78 | A reported match has a group of 1–4 digits, a separator, 1–2 digits, a separator and 1–4 digits. |
| Dates.MatchAtGreedy | invoice_normalizer.py:78 | Any other match at the same position has the same first two groups and a last group no longer than the reported one. |
| Dates.MatchAtComplete | invoice_normalizer.py:78 | Wherever the pattern matches, a match is reported. |
| Dates.MatchAtExact | invoice_normalizer.py:78 | A match whose last group ends at a non-digit, at the end of the text or after four digits is reported with exactly those groups. |
| Dates.Search | invoice_normalizer.py:79 | `re.search` reports a position at or after the start where the pattern matches. |
| Dates.SearchIsLeftmost | invoice_normalizer.py:79 | No earlier position matches, and reporting nothing means that no position matches. |
| Dates.GroupValue | invoice_normalizer.py:81 | A group of at most two digits is below 100, and one of at most four digits is below 10000. |
| Dates.ChooseYear | invoice_normalizer.py:84-93 | A year is chosen exactly when the first or third group exceeds 1000; it exceeds 1000, and the month is always the middle group. |
| Dates.FallbackOfMatch | invoice_normalizer.py:78-93 | The fallback chooses the year from the three group values of the leftmost match. |
| Dates.RenderShape | invoice_normalizer.py:86 | A rendered date is four digits, a dash, two digits, a dash and two to four digits. |
| Dates.MatchStart | invoice_normalizer.py:78 | A match begins with a digit that a separator follows. |
| Dates.FallbackShape | invoice_normalizer.py:84-93 | The fallback's output has the canonical shape, with a day of up to four digits. |
| Dates.ReadDate | invoice_normalizer.py:63-96 | Reading stripped text gives either the text itself or canonical-shaped text. |
| Dates.NormalizeDate | invoice_normalizer.py:54-96 | The result is `None` exactly for falsy values and values that are neither text nor integers; otherwise it is a string, either the stripped text or canonical-shaped. |
| DateLemmas.ScanLiteralOccurs | invoice_normalizer.py:72 | Every literal of a layout occurs in text the layout accepts. |
| DateLemmas.ScanStep | invoice_normalizer.py:72 | A layout consumes a prefix for its first token (one character for a literal, one or more digits for a numeric field), and the rest of the layout accepts what remains. |
| DateLemmas.ScanNeedsDigit | invoice_normalizer.py:72 | A layout with a numeric field accepts only text holding a digit. |
| DateLemmas.ScanStartsWithDigit | invoice_normalizer.py:72 | A layout that starts with a numeric field accepts only text that starts with a digit. |
| DateLemmas.ScanNumberThenLit | invoice_normalizer.py:72 | After a leading `%d` or `%m`, the layout's literal sits at position 1 or 2. |
| DateLemmas.MissingLiteral | invoice_normalizer.py:63-72 | A layout rejects text lacking one of its literals. |
| DateLemmas.FirstFormatOf | invoice_normalizer.py:70-74 | In any list of layouts, the search settles on the first that parses. |
| DateLemmas.FirstFormatIs | invoice_normalizer.py:63-74 | The catalogue search settles on layout k when k parses and no earlier one does. |
| DateLemmas.FirstLayoutWins | invoice_normalizer.py:63-74 | The date of the first layout that parses is the one rendered. |
| DateLemmas.SlashRejectsIsoLayout | invoice_normalizer.py:64 | Text that a slashed layout accepts is rejected by `%Y-%m-%d`. |
| DateLemmas.DayFirstReading | invoice_normalizer.py:63-74 | Text that `%d/%m/%Y` accepts is rendered from that reading. |
| DateLemmas.DayFirstWins | invoice_normalizer.py:54-74 | Day-first beats month-first, whatever `%m/%d/%Y` makes of the text. |
| DateLemmas.MonthFirstReading | invoice_normalizer.py:63-74 | Text that `%d/%m/%Y` rejects and `%m/%d/%Y` accepts is rendered month-first. |
| DateLemmas.MonthFirstOnlyWhenDayFirstFails | invoice_normalizer.py:54-74 | `normalize_date` reads month-first when day-first fails. |
| DateLemmas.ScanAvoids | invoice_normalizer.py:72 | A layout of numeric fields and literals other than a non-digit x accepts no text containing x. |
| DateLemmas.ScanDigitsAndDashes | invoice_normalizer.py:64 | Text accepted by `%Y-%m-%d` holds no slash. |
| DateLemmas.RenderRoundTrip | invoice_normalizer.py:72 | `%Y-%m-%d` reads every valid date back from its rendering. |
| DateLemmas.CanonicalDateIsFixedPoint | invoice_normalizer.py:54-96 | A valid date already in `YYYY-MM-DD` form is left as it is. |
| DateLemmas.CatalogueHasNumericField | invoice_normalizer.py:63-68 | Every layout has a numeric field at position 0 or 2. |
| DateLemmas.CatalogueSecondToken | invoice_normalizer.py:63-68 | Every layout's second token is a non-digit literal. It is a dash only in `%Y-%m-%d`, `%d-%m-%Y` and `%m-%d-%Y`, each of which starts with a numeric field. |
| DateLemmas.NoDigitNoLayout | invoice_normalizer.py:63-74 | No layout accepts text without digits. |
| DateLemmas.NoDigitRejected | invoice_normalizer.py:63-72 | Each layout rejects text without digits. |
| DateLemmas.FallbackNeedsDigitThenSeparator | invoice_normalizer.py:78-80 | The fallback applies only to text with a digit directly before a separator. |
| DateLemmas.SearchNeedsDigitThenSeparator | invoice_normalizer.py:78-79 | The search finds a match only in text with a digit directly before a separator. |
| DateLemmas.FallbackReading | invoice_normalizer.py:76-93 | Without a layout that parses, the leftmost match decides. The first group is the year if it exceeds 1000, else the third group if that does, with the middle group as month; otherwise the text comes back. |
| DateLemmas.BlankDateIsNotIdempotent | invoice_normalizer.py:56-60 | A blank string is truthy and becomes `""`, which is falsy and becomes `None` on a second pass. |
| DateLemmas.DigitFreeTextPassesThrough | invoice_normalizer.py:54-96 | Text without digits comes back stripped. |
| DateLemmas.BooleanDates | invoice_normalizer.py:56-60 | `True` becomes the string `"True"`, and `False` becomes `None`. |
| DateLemmas.IntegerTextIsNotRead | invoice_normalizer.py:63-96 | Integer text (digits, possibly after a minus sign) is not read as a date. |
| DateLemmas.IntegerTextIsTrimmed | invoice_normalizer.py:60 | `str()` of an integer has no blanks for `strip()` to remove. |
| DateLemmas.IntegerTextRejected | invoice_normalizer.py:63-72 | Every layout rejects integer text. |
| DateLemmas.IntegerTextRejectedBy | invoice_normalizer.py:72 | A layout whose second token is a non-digit literal rejects integer text; for a dash, the layout must start with a numeric field. |
| DateLemmas.IntegerDatePassesThrough | invoice_normalizer.py:56-96 | A non-zero integer comes back as its `str()`, never as a number. |
| DateLemmas.DashedGroups | invoice_normalizer.py:78 | Three digit groups joined by dashes match the pattern at the start. |
| DateLemmas.SearchOfDashed | invoice_normalizer.py:78-79 | The search finds those groups at position 0, with their lengths. |
| DateLemmas.FallbackOfDashed | invoice_normalizer.py:78-93 | The fallback chooses the year from the values of the three dashed groups. |
| DateLemmas.DashedLiterals | invoice_normalizer.py:63-68 | Dashed digit groups contain none of the literals ` `, `/`, `.` or `,`. |
| DateLemmas.DashedRejectedBy | invoice_normalizer.py:63-72 | Only the three dashed layouts can accept dashed digit groups. |
| DateLemmas.YearFirstRejectedBy | invoice_normalizer.py:65 | `%d-%m-%Y` and `%m-%d-%Y` reject text whose first group has four digits. |
| DateLemmas.ScanIsoDigits | invoice_normalizer.py:64 | `%Y-%m-%d` reads four, two and two dashed digits as the date they spell, whether or not that date exists. |
| DateLemmas.IsoTextIsFixedPoint | invoice_normalizer.py:63-96 | Canonical-shaped text is read as itself. |
| DateLemmas.IsoTextRejected | invoice_normalizer.py:63-74 | No layout accepts canonical-shaped text that names no real date. |
| DateLemmas.IsoTextPassesThrough | invoice_normalizer.py:54-96 | Canonical-shaped text comes back unchanged, even with a month or day out of range. |
| DateLemmas.GroupSeparator | invoice_normalizer.py:64-65 | Each numeric day/month layout uses one separator in both its places. |
| DateLemmas.ScanDayMonthDigits | invoice_normalizer.py:64-65 | The five numeric day/month layouts read day, month and year from the positions their directives name. |
| DateLemmas.ScanName | invoice_normalizer.py:66-67 | A `%b` or `%B` field reads a month name, in any case, as its month number. |
| DateLemmas.ScanNameFirstOf | invoice_normalizer.py:66 | A `%b %d, %Y`-shaped layout reads month name, day digits and year as the date they name. |
| DateLemmas.ScanNameSecondOf | invoice_normalizer.py:66-67 | A `%d %b %Y`-shaped layout reads day digits, month name and year as the date they name. |
| DateLemmas.ScanMonthNameDigits | invoice_normalizer.py:66-67 | The four month-name layouts `%b %d, %Y`, `%d %b %Y`, `%B %d, %Y` and `%d %B %Y` read the date their month name, day and year name. |
| DateLemmas.LeadingNonDigitRejected | invoice_normalizer.py:63-65 | Text not starting with a digit fails the six layouts that start with a number. |
| DateLemmas.AbbrevFirstReading | invoice_normalizer.py:54-74 | `Mon D, YYYY` naming a real date is normalized to that date by `%b %d, %Y`. |
| DateLemmas.RenderOfDigits | invoice_normalizer.py:72 | `strftime('%Y-%m-%d')` of the date that 4-2-2 digit groups spell gives the groups back. |
| DateLemmas.DayFirstFallback | invoice_normalizer.py:63-93 | Dashed text whose two readings name no real date is reordered by the fallback, year first. |
| DateLemmas.DayFirstRejected | invoice_normalizer.py:63-74 | No layout accepts dashed text whose two readings name no real date. |
| DateLemmas.DashedReadingRejected | invoice_normalizer.py:65 | `%d-%m-%Y` and `%m-%d-%Y` reject such text. |
| DateLemmas.ShortGroupRejectsYear | invoice_normalizer.py:64 | `%Y-%m-%d` needs four leading digits. |
| DateLemmas.DayFirstRearranged | invoice_normalizer.py:54-74 | `DD/MM/YYYY` naming a real date comes out as `YYYY-MM-DD` with the same digits. |
| DateLemmas.MonthFirstRearranged | invoice_normalizer.py:54-74 | `MM/DD/YYYY` whose day-first reading is invalid and month-first reading valid comes out as `YYYY-MM-DD`. |
| DateLemmas.SwappedRearranged | invoice_normalizer.py:54-96 | `DD-MM-YYYY` with both readings invalid is still reordered by the fallback, with no range check. |
| DateExamples.DayFirstExample | invoice_normalizer.py:64 | `07/05/2023` becomes `2023-05-07`. |
| DateExamples.MonthFirstExample | invoice_normalizer.py:64 | `12/25/2023` becomes `2023-12-25`. |
| DateExamples.OutOfRangeIsoExample | invoice_normalizer.py:78-96 | `2023-13-45` comes back as it is. |
| DateExamples.SwappedFallbackExample | invoice_normalizer.py:89-91 | `45-13-2023` becomes `2023-13-45`. |
| DateExamples.NotADateExample | invoice_normalizer.py:95-96 | `" not a date "` comes back stripped. |
| DateExamples.MonthNameExample | invoice_normalizer.py:66-72 | `May 7, 2023` is normalized to `2023-05-07`. |
| Amounts.Clean | invoice_normalizer.py:114 | Cleaning keeps only digits, periods and commas. It keeps the digits in order and the number of periods and of commas, and leaves text made only of them as it is; the order of the marks among the digits is fixed by `CleanAppend`. |
| Amounts.CleanAppend | invoice_normalizer.py:114 | Cleaning distributes over concatenation. |
| Amounts.CleanAround | invoice_normalizer.py:114 | A kept character stays between the cleaned text around it. |
| Amounts.CleanOfUnmarked | invoice_normalizer.py:114 | Text without periods and commas cleans to its digits. |
| Amounts.CleanOfTrim | invoice_normalizer.py:108-114 | Stripping before cleaning makes no difference. |
| Amounts.CommasToPoints | invoice_normalizer.py:118 | Every comma becomes a period and nothing else changes. |
| Amounts.CommasToPointsCounts | invoice_normalizer.py:118 | The replacement keeps the digits and adds one period per comma. |
| Amounts.CommasToPointsAppend | invoice_normalizer.py:118 | The replacement distributes over concatenation. |
| Amounts.CommaToPoint | invoice_normalizer.py:118 | A comma between digit groups becomes a period. |
| Amounts.DropCommas | invoice_normalizer.py:121 | Removing commas keeps the periods and the digits, and leaves comma-free text as it is. |
| Amounts.DropCommasAppend | invoice_normalizer.py:121 | Removing commas distributes over concatenation. |
| Amounts.DropCommasOfClean | invoice_normalizer.py:114-121 | Cleaned text without a period, with its commas removed, is its digits. |
| Amounts.Reconcile | invoice_normalizer.py:117-121 | The decimal-mark rule leaves only digits and periods and keeps the digits. The periods are the original ones, or the commas when there was no period. |
| Amounts.ParseDecimal | invoice_normalizer.py:124 | `float()` reads digits-and-periods text exactly when it has a digit and at most one period. The value is its digits, with a scale given by the digits after the period. |
| Amounts.PointedDigits | invoice_normalizer.py:124 | Digits, a period and digits read as the digits over ten to the length of the second group. |
| Amounts.ParseAmount | invoice_normalizer.py:114-125 | Cleaned and reconciled text is read exactly when it has a digit and at most one decimal mark: a period if there is one, else a comma. The value is made of all its digits. |
| Amounts.NormalizeAmount | invoice_normalizer.py:99-127 | `None` stays `None`, integers and booleans become floats of the same value, and floats stay. Anything else gives `None`, a number or the value unchanged. |
| Amounts.AmountOfText | invoice_normalizer.py:108-127 | For text, lists and dicts: `None` exactly when the text strips to nothing, and a number exactly when it is readable. The number is non-negative and made of the text's digits; otherwise the original value comes back. |
| Amounts.AmountOfUntrimmed | invoice_normalizer.py:108-127 | The result is what reading the unstripped text gives: blank text gives `None`, a readable parse gives the number, otherwise the value comes back. |
| Amounts.BlankIsUnreadable | invoice_normalizer.py:109-110 | Blank text has no digit and is not readable. |
| Amounts.AmountIdempotent | invoice_normalizer.py:99-127 | Normalizing an amount twice is the same as normalizing it once. |
| Amounts.ReadableText | invoice_normalizer.py:108-124 | Readable text is normalized to the number it reads as, whatever blanks surround it. |
| Amounts.SameCleanSameAmount | invoice_normalizer.py:114-124 | Two texts that clean alike read alike. |
| Amounts.SignIsDropped | invoice_normalizer.py:114 | A leading minus sign is cleaned away, so a result is never negative. |
| Amounts.ShowParseRoundTrip | invoice_normalizer.py:124 | `float()` reads every non-negative decimal back from its printed form. |
| Amounts.AmountRoundTrip | invoice_normalizer.py:108-124 | A printed non-negative decimal is normalized to itself. |
| Amounts.DecimalTextIsRead | invoice_normalizer.py:108-124 | Digits-and-periods text needs no stripping and goes straight to `float()`. |
| Amounts.PointMark | invoice_normalizer.py:114-124 | With one period, every digit counts, commas anywhere are thousands separators, and the scale is the number of digits after the period. |
| Amounts.PointAmount | invoice_normalizer.py:108-124 | `normalize_amount` of text with one period gives that number. |
| Amounts.CommaMark | invoice_normalizer.py:117-124 | With one comma and no period, the comma is the decimal mark. |
| Amounts.CommaAmount | invoice_normalizer.py:108-124 | `normalize_amount` of text with one comma and no period gives that number. |
| Amounts.TwoCommas | invoice_normalizer.py:117-125 | Two commas and no period make two decimal marks, which `float()` refuses. |
| Amounts.WholeAmount | invoice_normalizer.py:114-124 | Text with neither a period nor a comma is a whole number of its digits. |
| AmountExamples.DollarExample | invoice_normalizer.py:113-124 | `$1,234.56` becomes 1234.56. |
| AmountExamples.PointBeforeComma | invoice_normalizer.py:119-124 | Digits, a period, digits, a comma and digits: the comma is dropped, so every digit after the period counts towards the scale. |
| AmountExamples.ContinentalExample | invoice_normalizer.py:113-124 | `1.234,56` becomes 1.23456, not 1234.56. |
| AmountExamples.DecimalCommaExample | invoice_normalizer.py:117-118 | `12,50` becomes 12.5. |
| AmountExamples.NegativeExample | invoice_normalizer.py:114 | `-12.50` becomes 12.5. |
| AmountExamples.ThousandsOnlyExample | invoice_normalizer.py:117-127 | `1,234,567` comes back unchanged. |
| AmountExamples.WordExample | invoice_normalizer.py:123-127 | `abc` comes back unchanged. |
| AmountExamples.BlankExample | invoice_normalizer.py:108-110 | `"   "` becomes `None`. |
| Invoice.FieldKindsAreDisjoint | invoice_normalizer.py:135-149 | No field is normalized both as a date and as an amount. |
| Invoice.ProcessInvoice | invoice_normalizer.py:130-151 | The names are exactly those of the renamed record, and no field is added. Each value is the last one written under its name, normalized as that name says. |
| Invoice.ProcessedField | invoice_normalizer.py:130-151 | The value under a name is the last value written to it, normalized as the name says. |
| Invoice.DateFieldValue | invoice_normalizer.py:136-140 | A date field holds `None` exactly when its value is not a truthy string or integer; otherwise a string, stripped or canonical-shaped. |
| Invoice.AmountFieldValue | invoice_normalizer.py:142-149 | An amount field holds `None`, a number or its value unchanged. |
| Invoice.OtherFieldValue | invoice_normalizer.py:130-151 | Any other field keeps its value. |
| Invoice.LastWriteIsUnique | invoice_normalizer.py:47-50 | Only one value is the last written under a name. |
| Invoice.CanonicalInvoice | invoice_normalizer.py:130-151 | A record with distinct canonical names keeps its names, and each value is normalized as its name says. |
| Invoice.ProcessedSize | invoice_normalizer.py:130-151 | A processed record has at most as many fields as its input. |
| Invoice.AmountFieldIdempotent | invoice_normalizer.py:142-149 | Normalizing an amount field a second time changes nothing. |
| Invoice.FirstNonObject | invoice_normalizer.py:156-157 | The index of the first list element that is not a dict, or the length when every element is one. |
| Invoice.ProcessAll | invoice_normalizer.py:156-157 | A list succeeds exactly when every element is a dict, giving one record per element, in order. Otherwise the error names the first element that is not a dict. |
| Invoice.NormalizeInvoiceData | invoice_normalizer.py:154-162 | A list gives its records, same length and order, or the first element's error. A dict gives one processed record, and anything else comes back unchanged. |
| Invoice.BatchIsElementwise | invoice_normalizer.py:156-159 | Each record of a batch is what that element gives when processed alone. |
| Invoice.FirstFailure | invoice_normalizer.py:156-157 | The error is raised at the first element that is not a dict. |
| Invoice.AppendBothSucceed | invoice_normalizer.py:156-157 | Two successful batches, concatenated, give their records one after the other. |
| Invoice.AppendFirstFails | invoice_normalizer.py:156-157 | A failing first batch's error is the concatenation's error. |
| Invoice.AppendSecondFails | invoice_normalizer.py:156-157 | After a successful first batch, the second batch's error is reported shifted past the first. |

## Left out

- `api.py` (the HTTP layer: route, upload, content-type check, `json.loads`, status mapping, server start-up) is not part of this model: it is I/O and framework plumbing.
- Logging (invoice_normalizer.py:10, 95, 126, 161) has no effect on the results and is not modelled.
- Amounts.NormalizeAmount: `float()` of an integer outside the double range (a 400-digit amount, say) raises `OverflowError` at invoice_normalizer.py:106; nothing catches it, so it leaves `normalize_invoice_data`. The model returns the exact value `Decimal(i, 0)` instead.
- IEEE floating point: `float()` is modelled as an exact decimal. A `JNum` input is kept abstract and returned as it is. `Decimal` values are not normalized, so 12.50 is `Decimal(1250, 2)` and equality is on that representation.
- `str()` of a list or a dict reaching `normalize_amount` depends on Python's `repr` and is the parameter `show`.
- `strptime` internals: locale, matching any whitespace run for a space in a layout, and a `%d` preceded by a space are not modelled. `%d` and `%m` take one or two digits, `%Y` exactly four, and month names are English and case-insensitive.
- `strftime` pads years below 1000 differently on some platforms; the model pads to four digits.
- Unicode: `lower()`, `strip()` and the regular expression's `\d` are modelled over ASCII only.
- `float()` accepts more than digits and one period (signs, exponents, `inf`, `nan`, underscores), but cleaning leaves only digits, periods and commas, so only that part of its grammar is modelled.
- Key order of the returned dict: Python keeps each canonical name at the position where it was first stored, so the order is visible in the output JSON, but the output is a `map` and that order is not modelled. A repeated key cannot come out of `json.loads`; the input record is a sequence of fields, so the last-write-wins rule is modelled.
- The unused `sys` and `json` imports.
- Dates.NormalizeDate: idempotence is not claimed. `DateLemmas.BlankDateIsNotIdempotent` shows blank text fails it, and fallback output can carry a day of three or four digits.
