# Beykoz news-tracking dashboard — a Dafny model of its report core

The dashboard (`app.py`, a Streamlit application) records how often each
municipal department (Müdürlük) appeared in a news source on a given day.
It stores one CSV row per (date, department, source, count, detail). It
filters those rows for a report screen, summarises each (date, department)
group, and prints the selection as a landscape PDF table. This project
models the data logic behind that work:

- `text.dfy` (module `Text`) holds the Python built-ins the code leans on.
  These are `str(int)`, zero-padded `strftime` fields, `sep.join`, and the
  code-point order of `str` comparison that `sort_values` and `groupby`
  use.
- `translit.dfy` (module `Transliteration`) models `tr_karakter_duzelt`.
  It is the twelve-letter Turkish-to-ASCII map applied to every PDF text.
- `dates.dfy` (module `Dates`) models `tarih_formatla`. It covers the
  proleptic Gregorian calendar of `datetime.date` (ordinal, weekday,
  validity) and `strptime(s, '%Y-%m-%d')`, with the month and day
  alternatives of Python's `_strptime` regular expression and its
  "unconverted data" rule.
- `records.dfy` (module `Records`) holds the record type and three list
  operations:
  - the fan-out of `veri_kaydet_dosyaya`, one record per selected
    department;
  - the report filter mask;
  - "drop the group, append the edited rows", which saves an edited group.
- `summary.dfy` (module `Summary`) models `ozet_metni_olustur`. It gives
  the total, the per-source breakdown in `groupby` key order, and the
  detail lines.
- `report.dfy` (module `Report`) models the table loop of
  `create_pdf_report`:
  - the (date, department) sort and the row texts;
  - the estimated row height and the page-break rule at 190;
  - the repeated header band, the alternating white/tint shading, and the
    small department font.

  The loop runs over a `TableCursor` class that holds the pdf object's
  cursor, page count, font size and shading flag. It is proved to draw
  exactly the placements of a pure layout function `Plan`. The facts about
  the layout are proved as lemmas about `Plan`.

The PDF geometry that fpdf decides is a parameter, `Geometry`. It holds
the cursor height after `add_page()` and the `header()` hook, and the left
margin. How far `multi_cell` really moves the cursor is also a parameter,
`drawn`. The code resets the cursor to the start height plus the estimated
height after every row, so the cursor heights of the layout do not depend
on it. The page numbers of `Plan` assume that `multi_cell` stays within
the estimated height: a detail whose wrapped lines or line breaks run past
the bottom line makes fpdf break the page inside `multi_cell`, and every
later page number is then one higher than `Plan` says.

Points where the code is easy to misread; the model follows the code:

- The line count is `max(1, len // 95 + 1)`, a floor plus one. A detail of
  exactly 95 characters takes two lines (`LineCountFloor`).
- Only the twelve letters `ğĞıİşŞçÇöÖüÜ` are mapped. `â`, `î` and `û` are
  left as they are (`TrCharOthers`, `TranslitKeepsOthers`).
- The PDF date cell carries the full `tarih_formatla` form, weekday
  included.
- An empty selection gives the title, the header band and no rows.
- The final `encode('latin-1')` is strict. A character outside Latin-1
  raises an error.

## Model

| member | source | states |
|---|---|---|
| Transliteration.TrCharTable | app.py:92 | each of the twelve letters `ğĞıİşŞçÇöÖüÜ` maps to the letter at the same position of `gGiIsScCoOuU` |
| Transliteration.TrCharOthers | app.py:92-93 | every other character (â, î, û included) is kept, and no character maps into the twelve |
| Transliteration.TranslitAt | app.py:93 | `translate` works character by character: the length is kept, and position i of the result is the image of position i |
| Transliteration.Transliterate | app.py:90-93 | a non-string cell becomes `str(n)` untranslated; a string keeps its length |
| Transliteration.TranslitIdempotent | app.py:90-93 | no Turkish letter survives, and transliterating twice is transliterating once |
| Transliteration.TranslitKeepsOthers | app.py:92-93 | text without any of the twelve letters comes back unchanged |
| Transliteration.TranslitConcat | app.py:104 | transliterating the assembled title is transliterating its pieces |
| Text.NatToStringRoundTrip | app.py:138 | the decimal rendering of a natural number reads back as that number |
| Text.IntToStringRoundTrip | app.py:138 | `str(n)` of any integer is a sign and digits that read back as `n` |
| Text.FixedRoundTrip | app.py:43 | a zero-padded `%d`/`%m`/`%Y` field of a number with at most w digits reads back as the number |
| Text.ParseNatBound | app.py:39 | a w-digit field stands for a number below 10^w, so a `%Y` year is at most 9999 |
| Text.JoinAppend | app.py:69 | `sep.join` of a list with one more part is the old join, the separator and the part |
| Text.StrLessTotal | app.py:132 | any two distinct strings are ordered one way or the other |
| Text.StrLessTransitive | app.py:132 | string order is transitive |
| Text.StrLessIrreflexive | app.py:68 | no string is below itself |
| Text.StrLessAsymmetric | app.py:68 | two strings are never each below the other |
| Dates.DaysBeforeYearStep | app.py:43 | each year adds its own 365 or 366 days to the days before it |
| Dates.OrdinalNext | app.py:43 | the day after any valid date but 9999-12-31 is valid, and its ordinal is one more |
| Dates.WeekdayNext | app.py:42-43 | the weekday of the next day is the next weekday, Sunday wrapping to Monday |
| Dates.WeekdayAnchors | app.py:42-43 | 0001-01-01 and 2024-01-15 are Mondays (index 0, `Pazartesi`) |
| Dates.OrdinalBounds | app.py:231 | a date's ordinal lies inside its own year's range of ordinals |
| Dates.BeforeIsChronological | app.py:231 | comparing dates as (year, month, day) is comparing them on the timeline, both directions |
| Dates.ParseIso | app.py:39 | whatever `strptime` accepts is a valid calendar date |
| Dates.ParseIsoString | app.py:39 | a date written `YYYY-MM-DD`, as the CSV stores it, parses back to the same date |
| Dates.ParseIsoAccepts | app.py:39 | one-digit month and day, and a space before a one-digit day, are accepted |
| Dates.ParseIsoRejects | app.py:39-41 | 2023-02-29, a day with a digit left over, and year 0 are rejected |
| Dates.FormatDate | app.py:36-43 | a string `strptime` rejects is returned unchanged |
| Dates.DisplayFields | app.py:42-43 | the display form reads back as two-digit day, two-digit month and four-digit year, dot-separated, then a space and the weekday's Turkish name |
| Dates.FormatStoredDate | app.py:36-43 | a date stored as `YYYY-MM-DD` text is shown exactly as the date itself |
| Records.SumCountsConcat | app.py:67 | the count total of two stretches of rows is the sum of their totals |
| Records.FanOut | app.py:52-62 | one record per selected department, in order, sharing date, source, count and detail; together they add count once per department |
| Records.FilterCounts | app.py:231-234 | the filter keeps every selected row as often as it occurs and drops every other row |
| Records.FilterConcat | app.py:231-234 | the filter keeps file order |
| Records.SelectedInRange | app.py:231 | a selected row's date lies between the two ends on the timeline, both ends included; a range that ends before it starts selects nothing |
| Records.EmptySelectionsIgnored | app.py:232-233 | with no department and no source chosen, only the date range decides |
| Records.ReplaceGroup | app.py:259-263 | the rows outside the group, in file order, followed by the edited rows |
| Records.DropTakeSplit | app.py:260 | every row is either dropped with the group or kept, never both |
| Records.ReplaceGroupContents | app.py:259-263 | the new rows are the old ones minus the group plus the edited ones; an unedited save is a permutation; the total is the kept rows' total plus the edited rows' total |
| Summary.AddToSums | app.py:68 | adding a record to the breakdown adds its count to its source and to the grand total, and to nothing else |
| Summary.AddToKeys | app.py:68 | adding a record makes its source a key and adds no other key |
| Summary.AddToAscending | app.py:68 | the breakdown stays in ascending source order |
| Summary.SourceTotalsCorrect | app.py:67-68 | the breakdown lists each source of the group once, in ascending order; each total is the sum of that source's counts; the totals add up to the group's total |
| Summary.SourceTotalsEntries | app.py:68-69 | each rendered `source: total` entry carries that source's sum |
| Summary.LookupAt | app.py:68 | in an ascending breakdown, an entry's total is what a lookup of its source finds |
| Summary.Summarize | app.py:66-74 | the total equals the sum of the per-source totals; the source text renders the breakdown; the details are one `- detail (source)` line per record, in row order, joined by newlines |
| Report.KeyLessOrAtMost | app.py:132 | of two records, either the first sorts strictly before the second or the second sorts no later than the first; strictly before means a different key |
| Report.KeyTransitive | app.py:132 | the (date, department) order is transitive |
| Report.InsertAt | app.py:132 | inserting a record puts it after the leading rows that do not sort strictly after it, and before the first that does |
| Report.InsertAfterTies | app.py:132 | in sorted rows, every row with the same date and department lies before the place where a later record is inserted |
| Report.SortTiesKeepOrder | app.py:132 | two records with the same date and department keep their input order |
| Report.InsertSorted | app.py:132 | inserting a record into rows sorted by (date, department) keeps them sorted and adds exactly that record |
| Report.SortByKey | app.py:132 | the report rows are ascending by (date, department) and a permutation of the input |
| Report.RowTextOf | app.py:135-139 | the department and detail texts keep their lengths through transliteration |
| Report.LineCountFloor | app.py:141-142 | the line count is at least 1 and is `len // 95 + 1`: up to 94 characters take one line, exactly 95 take two; the height is 6 per line |
| Report.PlanRows | app.py:134-182 | one placement per row, in order, with the row's own height, x at the left margin, the detail column 125 to its right, font 7 exactly for departments over 25 characters, and shading alternating by row number across page breaks |
| Report.PlanBreaks | app.py:144-155 | a row starts a new page exactly when the previous row's end plus its height passes 190; it then sits right under the new header band, otherwise right under the previous row; the page number goes up by one exactly at a break |
| Report.PlanFits | app.py:144-155 | a row no taller than the space below a header band never crosses the bottom line |
| Report.TableCursor.constructor | app.py:97-128 | after the page, title, gap and header band, the cursor is at the left margin in the row font, on page 1, unshaded, below the band |
| Report.TableCursor.BreakIfNeeded | app.py:144-155 | a row that would cross 190 starts a new page and the band is drawn again, leaving the cursor under the band in the row font; otherwise nothing moves |
| Report.TableCursor.AddRow | app.py:141-182 | one pass of the loop records the row's placement and leaves the cursor where the layout says, at the left margin in the row font |
| Report.LayoutRows | app.py:134-182 | the loop draws exactly the layout `Plan` of the rows |
| Report.PlanOfRecords | app.py:131-182 | the layout of the sorted records has one placement per record, in sorted order, white and tinted by turns starting with white |
| Report.LayoutReport | app.py:95-182 | the title is the transliterated `BEYKOZ HABER RAPORU (start - end)`; the placements are the layout of the sorted records, one per record, with the shading and heights above |

## Left out

- The Streamlit user interface, the session state and the entry-form callback are not modelled. They are event wiring around the core.
- Reading and writing the CSV file is not modelled, including the append in `veri_kaydet_dosyaya` and the rewrite after an edit. The model works on the list of rows.
- The `Kayit_Zamani` timestamp (`datetime.now()`) is not modelled. It is informational and never read by the core.
- fpdf's drawing is replaced by the placement records: glyphs, borders, colours of the header band, the title font, `header()`/`footer()`, and fpdf's own automatic page break. The page-top height and the left margin are the `Geometry` parameter.
- LayoutRows: does not model the wrapping `multi_cell` performs, nor fpdf's automatic page break inside it. Its drawn height is the `drawn` parameter; the cursor reset makes the cursor heights independent of it, but the page numbers of `Plan` hold only while `multi_cell` stays within the estimated height.
- LayoutReport: does not model the final `pdf.output(dest='S').encode('latin-1')`. Its failure on characters outside Latin-1 is not modelled.
- SortByKey: a stable insertion sort stands in for pandas' `sort_values`. Its contract states ascending order and permutation; stability is stated for one insertion (`InsertAfterTies`) and for two rows (`SortTiesKeepOrder`), not as one statement about the whole sort.
- ParseIso: accepts ASCII digits only. Python's `\d` also matches other Unicode decimal digits.
- Dates.Display: zero-pads the year to four digits. Some C libraries print years below 1000 with fewer digits under `%Y`.
- Transliterate: has only text and integer cells. Float and NaN cells that pandas may produce are not modelled.
- The Excel and HTML exports are not modelled beyond the `ozet_metni_olustur` strings they embed.
- The edited group's date re-parse (`pd.to_datetime` on the edited table) is not modelled. The edited rows are taken as records.
