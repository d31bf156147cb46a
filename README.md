# DI team tracker — a verified model of the survey pipeline

The DI team tracker is a set of Dash dashboards over a weekly team survey.
Each dashboard reads the latest spreadsheet export and derives a table from
it. It then draws two panels for the question picked in a dropdown: a "This
week" snapshot and an "Over time" trend. This project models, in Dafny, the
part of that work which is plain data transformation:

- **Week bucketing** (`dates.dfy`, module `Dates`). `round_to_end_of_week`
  maps every completion time to a Friday, the "week ending". A timestamp is
  a day number plus a second of the day. Day 0 is 1970-01-01, a Thursday, so
  Python's `weekday()` is `(day + 3) % 7`.
- **Numeric coercion** (`coercion.dfy`, module `Coercion`).
  `handling_bad_numbers` first tries `int()` on the whole entry. If that
  fails, it falls back to the first non-empty piece of `re.split(r"\W+",
  str(entry))`. A spreadsheet cell is a number, a text or an empty cell
  (NaN). The two uncaught exceptions of the fallback are the two errors of a
  `Result`:
  - `NoPieces` is the IndexError.
  - `FirstPieceNotInteger` is the ValueError.
- **The survey table** (`frame.dfy`, module `Frame`). This module covers:
  - the "Numeric: …" columns, where one bad answer aborts the load;
  - the "Week ending" column and the most recent week. A sheet with no
    responses aborts every load here: pandas does not read its empty
    "Completion time" column as dates, so `.dt.floor("D")` raises
    AttributeError (`NoDates`);
  - the inner and left merges with Roles.csv, and the "Developer" default;
  - selecting the rows of a week;
  - the trend means per (week, Role) and per week. A mean is kept as its
    (sum, count) pair.
- **The main dashboard** (`main_dashboard.dfy`, module `MainDashboard`,
  `src/main.py`). This module covers:
  - the load pipeline, as a method with a loop over the questions;
  - the list of people flagging their workload, and whether the e-mail is
    attempted;
  - the bar snapshot: counts per (value, Role), as a multiset;
  - the pie snapshot: counts per (raw answer, value), sorted by value;
  - the Dogs/Cats picture rule, where the coin flip is the outcome `Random`;
  - which panel each question gets.
- **The weekly and monthly dashboards** (`report_dashboard.dfy`, module
  `ReportDashboard`). This module covers:
  - the load pipeline with the left merge, the set of names missing from
    Roles.csv, and the conditional "Developer" default;
  - the free-text snapshot of the monthly dashboard;
  - the trend panel.
- `wrappers.dfy` holds the `Option` and `Result` types, and `sequences.dfy`
  (module `Sequences`) facts about a sequence's head used by the
  inductions, and a generic flat-map with its append law.

An entry such as "about 7 hours" is rejected rather than read as 7: its
first piece is "about", and `int("about")` raises, so the load aborts
(`Coercion.CoerceExamplesRejected`).

The `round_to_end_of_week` docstring says that days from Wednesday on are
rounded forward. The code rounds Saturday and Sunday back to the Friday just
gone, which is the closest Friday, as the first line of the docstring says.
The model states what the code does (`Dates.WeekendRoundsBack`). It does not
correct the code, because which of the two sentences was meant is unclear.

## Model

| member | source | states |
|---|---|---|
| Dates.RoundToEndOfWeek | src/utils.py:12-25 | The rounded timestamp falls on a Friday between 4 days before and 2 days after the input day, at the same time of day. |
| Dates.WeekEnding | src/main.py:29-31 | The "Week ending" of a completion time is a Friday between 4 days before and 2 days after the completion day. |
| Dates.Weekday | src/utils.py:21 | The weekday number of a day is below 7 (Monday = 0 … Sunday = 6). |
| Dates.RoundShift | src/utils.py:21-25 | Each weekday is shifted by a fixed number of days: Mon −3, Tue −4, Wed +2, Thu +1, Fri 0, Sat −1, Sun −2. The time of day is unchanged. |
| Dates.WeekendRoundsBack | src/utils.py:24-25 | Saturday and Sunday go back (by 1 and 2 days) to the Friday just gone, not forward. |
| Dates.RoundLandsOnFriday | src/utils.py:21-25 | For every input weekday, the rounded date is a Friday. |
| Dates.FridayOwnsWindow | src/utils.py:22-25 | A day rounds to Friday F exactly when it is one of the seven days F−2 (Wednesday) … F+4 (Tuesday). |
| Dates.RoundMonotone | src/utils.py:22-25 | A later day never gets an earlier week ending. |
| Dates.RoundIdempotent | src/utils.py:22-25 | Rounding an already rounded timestamp changes nothing. |
| Dates.WeekEndingIsNearbyFriday | src/main.py:29-31 | The "Week ending" is the midnight of a Friday between 4 days before and 2 days after the completion day. |
| Coercion.ParseSignedDigits | src/utils.py:37 | `int()` on trimmed text succeeds exactly when the text is one or more digits, or a sign followed by one or more digits. |
| Coercion.LeadingZerosValue | src/utils.py:37 | Leading zeros do not change the value of a digit string. |
| Coercion.ParseSignedDigitsValue | src/utils.py:37 | An optional "+" or "-", any leading zeros, then the decimal digits of n read as n, or −n after "-" ("+007" → 7, "-007" → −7). |
| Coercion.ParseInt | src/utils.py:37 | A string `int()` accepts holds only whitespace (codes 9-13 and 32), signs and digits, and at least one digit. |
| Coercion.OutsideAlphabetRejected | src/utils.py:37 | `int()` rejects text holding any other character, an information separator (codes 28-31) included. |
| Coercion.SplitOnNonWord | src/utils.py:39 | `re.split(r"\W+", s)` gives at least one piece, and every piece consists of word characters only. |
| Coercion.SplitWordPrefix | src/utils.py:39 | A leading run of word characters is glued to the front of the first piece; the other pieces are those of the rest. |
| Coercion.SplitAtSeparator | src/utils.py:39 | A non-empty leading run of separators before a word character (or the end) cuts off one empty piece, followed by the pieces of the rest. |
| Coercion.SplitAfterSeparators | src/utils.py:39 | Leading separators change nothing in the non-empty pieces. |
| Coercion.SplitKeepsWordChars | src/utils.py:39 | Splitting drops exactly the non-word characters: the pieces joined are the word characters of the input, in order. |
| Coercion.NonEmptyPieces | src/utils.py:39 | The comprehension keeps only non-empty pieces, each taken from the split. |
| Coercion.NonEmptyPiecesLine | src/utils.py:39 | A single piece is kept exactly when it is not empty. |
| Coercion.NonEmptyPiecesAppend | src/utils.py:39 | The comprehension keeps the non-empty pieces of each part of a list, in order. |
| Coercion.WordRunPieces | src/utils.py:39 | A run of word characters followed by a separator or nothing is the first kept piece, followed by the kept pieces after that separator. |
| Coercion.FirstPieceIs | src/utils.py:39 | For separators, then a run of word characters w, then a separator or nothing, the first non-empty piece is w. |
| Coercion.SignedDigitsOfDecimal | src/utils.py:37 | `int()` reads back what `str()` writes, for every integer: the sign, then the digits of the magnitude. |
| Coercion.CoerceRendered | src/utils.py:36-37 | Round trip: any integer written in decimal, with surrounding whitespace (codes 9-13 and 32), coerces back to itself ("7" → 7, "-3" → −3). A numeric cell coerces to its own value. |
| Coercion.HandlingBadNumbers | src/utils.py:28-40 | A numeric cell coerces to its own value. When the direct `int()` succeeds, its value is the result. An error is raised only after the direct `int()` failed, and when the direct parse fails a successful result is never negative. |
| Coercion.CoerceLeadingNumber | src/utils.py:36-40 | Digits followed by a separator coerce to those digits, whatever follows ("7 hours", "7.5", "7-8" → 7). |
| Coercion.CoerceByFirstPiece | src/utils.py:38-40 | When `int()` rejects an entry made of separators, then a run of word characters w, then a separator or nothing: the result is the value of w if w is all digits, and otherwise the ValueError naming w. |
| Coercion.DigitsThenWordRejected | src/utils.py:37 | `int()` rejects digits that a separator parts from a later word character, whatever precedes them. |
| Coercion.CoerceSkipsLeadingSeparators | src/utils.py:38-40 | Separators before the digits are skipped, so a sign is lost when the direct parse fails ("-3 hours" → 3). |
| Coercion.WordFirstRejected | src/utils.py:37 | `int()` rejects an entry whose first character after the separators is a letter or `_`. |
| Coercion.FirstPieceAfterSeparators | src/utils.py:39 | After leading separators, the first non-empty piece is the run of word characters that follows them. |
| Coercion.CoerceWordFirstFails | src/utils.py:38-40 | If the first word character is not a digit, the entry is rejected, even when digits follow ("about 7 hours", "seven"). |
| Coercion.CoerceNoWordFails | src/utils.py:39-40 | An entry with no word character fails with the IndexError ("", "-", "?"). |
| Coercion.CoerceBlankFails | src/utils.py:36-40 | An empty cell always fails: `str(nan)` is "nan", which is not an integer. |
| Coercion.CoerceExampleDirect | src/utils.py:36-37 | "7" → 7. |
| Coercion.CoerceExampleNegative | src/utils.py:36-37 | "-3" → −3: the direct parse keeps the sign. |
| Coercion.DirectSignedDigits | src/utils.py:36-37 | Whitespace, an optional "+" or "-", any leading zeros, the decimal digits of n, then whitespace: `int()` reads n (−n after "-"), and so does the coercion. |
| Coercion.CoerceExamplesSignAndZeros | src/utils.py:36-37 | "+7" → 7, "007" → 7, "-07" → −7. |
| Coercion.CoerceDigitThenSeparator | src/utils.py:36-40 | A digit followed by a separator gives that digit, whatever follows. |
| Coercion.CoerceExamplesLeadingNumber | src/utils.py:38-40 | "7 hours", "7.5" and "7-8" → 7. |
| Coercion.CoerceExampleSignLost | src/utils.py:38-40 | "-3 hours" → 3. |
| Coercion.CoerceExampleSeparatorCode | src/utils.py:36-40 | An information separator (code 28) before "-7" is not stripped, so the direct parse fails and the fallback gives 7, the sign lost. |
| Coercion.CoerceExamplesRejected | src/utils.py:36-40 | "about 7 hours" and "seven" fail with the ValueError; "" fails with the IndexError. |
| Frame.NumericAnswers | src/main.py:26 | A row gets exactly one "Numeric" value per listed question. |
| Frame.ColumnOutcomes | src/main.py:26 | `apply` gives one outcome per row, in row order: that row's coerced answer. |
| Frame.Collect | src/main.py:26 | A column of outcomes gives one value per row, each the row's own outcome. On failure, it names the first failing row and its error, and every earlier row succeeded. |
| Frame.NumericAnswersAre | src/main.py:24-26 | A map whose keys are the listed questions and whose values are the coerced answers is the row's "Numeric" columns. |
| Frame.CreateNumericColumns | src/main.py:24-26 | The loop succeeds exactly when every answer to every listed question coerces. Each row then gets exactly the coerced value of each question. Otherwise the error is the first cell to raise: its question is the first listed question whose column does not coerce (all earlier columns coerce), its row is the first row of that column that raises, and it carries the error that answer raises. |
| Frame.Prepared | src/main.py:24-31 | One row per spreadsheet row, in order. Each keeps its Name, answers and completion time, has no Role yet, and has a Friday "Week ending" (the rounded completion time). It has exactly one "Numeric" value per listed question: the coerced answer. |
| Frame.PreparedFromColumns | src/main.py:24-31 | The rows built from the coerced columns and the "Week ending" of each completion time are the prepared table. |
| Frame.MostRecentWeek | src/main.py:32 | The maximum week: none exactly for an empty table; otherwise some row's week, and no row's week is later. |
| Frame.MostRecentWeekIsFriday | src/main.py:29-32 | The most recent week is a Friday, and no response was completed after the Tuesday that follows it. |
| Frame.PreparedShape | src/main.py:24-32 | Every prepared row has every numeric column, its week is a Friday, and that week is not after the most recent week. |
| Frame.RolesFor | src/main.py:36 | The merge finds the Roles.csv lines whose Name matches, and none exactly when the Name is not listed. |
| Frame.RolesForLine | src/main.py:36 | One Roles.csv line gives its Role when its Name matches, and nothing otherwise. |
| Frame.RolesForAppend | src/main.py:36 | The matches of a file are those of its first part followed by those of the rest: one entry per matching line, in file order. |
| Frame.WithRoles | src/main.py:36 | A matched row is repeated once per matching line, with that line's Role. |
| Frame.InnerJoin | src/main.py:36 | The inner merge keeps only listed Names, and only changes the Role of survey rows. Apart from Role, its rows are exactly the survey rows whose Name is listed. |
| Frame.LeftJoin | src/weekly.py:33 | The left merge keeps every survey row (at least as many rows as before), and only changes Roles. |
| Frame.InnerHead | src/main.py:36 | The rows one survey row gives in the inner merge carry its Name, which is listed; apart from Role they are that row if its Name is listed, and nothing otherwise. |
| Frame.InnerJoinLine | src/main.py:36 | One survey row gives one copy per matching Roles.csv line, in file order, each with that line's Role (nothing when unlisted). |
| Frame.InnerJoinFlat | src/main.py:36 | The inner merge is the concatenation, in survey order, of what each row gives. |
| Frame.InnerJoinAppend | src/main.py:36 | The inner merge of a table is that of its first part followed by that of the rest, so survey order is kept. |
| Frame.LeftHead | src/weekly.py:33 | One survey row gives at least one row in the left merge, each that row apart from Role. |
| Frame.LeftJoinLine | src/weekly.py:33 | One survey row gives one copy per matching Roles.csv line, in file order, each with that line's Role; an unlisted row is kept once with no Role. |
| Frame.LeftJoinFlat | src/weekly.py:33 | The left merge is the concatenation, in survey order, of what each row gives. |
| Frame.LeftJoinAppend | src/weekly.py:33 | The left merge of a table is that of its first part followed by that of the rest, so survey order is kept. |
| Frame.InnerJoinIsLeftJoinMatched | src/main.py:36 | The inner merge is the left merge without the rows whose Name is not in Roles.csv. |
| Frame.LeftJoinUnique | src/weekly.py:33 | When each Name is listed at most once, the left merge keeps the rows one for one, in order. Each row gets its listed Role, or none. |
| Frame.MissingInLeftHead | src/weekly.py:33-34 | The rows the left merge makes from one survey row leave its Name without a Role exactly when the Name is unlisted or listed with an empty Role. |
| Frame.MissingNames | src/weekly.py:34 | The missing set holds the Name of every row without a Role, and only such Names. |
| Frame.MissingAfterLeftJoin | src/weekly.py:34 | A Name is reported missing exactly when it answered the survey and either is absent from Roles.csv or has an empty Role there. |
| Frame.FillRole | src/main.py:37 | Afterwards every row has a Role. A row that had one keeps it unchanged; a row that had none gets "Developer". |
| Frame.FillRoleNothingMissing | src/weekly.py:35-37 | When no Name is missing, filling changes nothing, so the conditional fill gives the same table. |
| Frame.FillRoleBare | src/main.py:37 | Filling changes no column other than Role. |
| Frame.FilledShape | src/main.py:36-37 | After the merge and the fill, every row has a Role, and every row still has every numeric column and a Friday week no later than the most recent week. |
| Frame.InWeek | src/main.py:115 | Selecting a week keeps at most as many rows as the table has. |
| Frame.InWeekMembers | src/main.py:115 | Selecting a week keeps exactly the rows of that week; NaT selects nothing. |
| Frame.InWeekCounts | src/main.py:115 | Selecting a week keeps each row of that week as many times as the table has it, and no other row. |
| Frame.InWeekAppend | src/main.py:115 | Selection keeps row order. |
| Frame.InWeekIgnoresOtherWeeks | src/main.py:115 | Rows of other weeks change nothing in a week's selection. |
| Frame.WeekGroup | src/main.py:230 | A week's group is the selection of that week: exactly the rows of that week, in row order. |
| Frame.RoleWeekGroup | src/main.py:210-212 | A (week, Role) group holds exactly the rows of that week with that Role. |
| Frame.RoleWeekGroupCounts | src/main.py:210-212 | A (week, Role) group holds each row of that week and Role as many times as the table has it, and no other row. |
| Frame.RoleWeekGroupAppend | src/main.py:210-212 | Grouping keeps row order: the group of a table is the group of its first part followed by the group of the rest. |
| Frame.RoleWeekTrend | src/main.py:210-212 | The bar trend has a key for (week, Role) exactly when some row has that week and Role; each value is the mean of exactly that group, over at least one answer. |
| Frame.WeekTrend | src/main.py:230 | The pie trend has a key for a week exactly when some row has that week; each value is the mean of that week's rows, over at least one answer. |
| Frame.RoleWeekTrendPoints | src/main.py:210-212 | The bar trend has a point for (week, Role) exactly when some row has that week and Role. The point is the mean of exactly that group, over at least one answer. |
| Frame.WeekTrendPoints | src/main.py:230 | The pie trend has a point for a week exactly when some row has that week. The point is the mean of all that week's answers, over at least one answer. |
| Frame.SumWithin | src/main.py:210-212 | If all answers lie in [lo, hi], their sum lies between lo and hi times their number. |
| Frame.TrendWithinAnswers | src/main.py:210-230 | Every trend point, per (week, Role) or per week, lies between the smallest and largest answer. |
| Frame.SingleRoleTrendsAgree | src/weekly.py:88-96 | In a week where everyone has the same Role, that Role's bar trend point equals the week's pie trend point. |
| Frame.BottomPanel | src/main.py:208-254 | A bar question gets the per-(week, Role) mean trend, a pie question the per-week mean trend, and anything else the blank image. Every trend point averages at least one answer. |
| MainDashboard.KindOf | src/main.py:113-167 | A question is a bar, pie or picture question exactly when it is in that list. Bar and pie questions are exactly the numeric ones. A question is unlisted exactly when it is in none of the three lists. |
| MainDashboard.WorkloadFlags | src/main.py:40-47 | The list has at most one Name per row. |
| MainDashboard.WorkloadFlagsMembers | src/main.py:40-47 | A Name is on the list exactly when one of its rows of the most recent week answered exactly "Yes". |
| MainDashboard.WorkloadFlagsAppend | src/main.py:40-47 | The list follows row order. |
| MainDashboard.LoadMain | src/main.py:24-48 | The load succeeds exactly when the sheet has a response and every bar and pie answer coerces. A sheet with no responses fails with the AttributeError of `.dt.floor` (`NoDates`); otherwise a failure reports the first cell to raise, as `CreateNumericColumns` does. After success there is a most recent week. The rows are the inner merge of the prepared table, with "Developer" filled in. The most recent week is taken before the merge. The workload list is taken from the merged rows. The e-mail is attempted exactly when the list is non-empty. Every row has a Role and every numeric column, and its week is a Friday no later than the most recent week. |
| MainDashboard.BarTally | src/main.py:116-119 | There are at most as many bars as rows, and exactly as many when every row has a Role. |
| MainDashboard.BarTallyLine | src/main.py:116-119 | One row with a Role counts once at (its value, its Role); a row without a Role counts nowhere. |
| MainDashboard.BarTallyAppend | src/main.py:116-119 | The counts of two stretches of rows add up, so each (value, Role) count is the number of rows with that value and Role. |
| MainDashboard.BarTallyGroups | src/main.py:116-119 | A (value, Role) group exists exactly when a row has that value and Role. |
| MainDashboard.BarSnapshot | src/main.py:114-120 | There are at most as many counted rows as rows in the most recent week, and exactly as many once every row has a Role. |
| MainDashboard.BarSnapshotGroups | src/main.py:114-120 | A (value, Role) bar exists exactly when some row of the most recent week has that value and Role. |
| MainDashboard.BarSnapshotTotal | src/main.py:114-120 | Once every row has a Role, the bar counts add up to the number of rows of the week. |
| MainDashboard.BarSnapshotIgnoresOtherWeeks | src/main.py:115 | Rows from other weeks contribute nothing to the bars. |
| MainDashboard.BarSnapshotExample | src/main.py:114-120 | Values 3, 3, 5 with Roles X, Y, X give the counts (3, X) = 1, (3, Y) = 1, (5, X) = 1. |
| MainDashboard.Distinct | src/main.py:143 | The distinct pairs: each pair that occurs, exactly once. |
| MainDashboard.InsertKeepsLowerBound | src/main.py:147 | Inserting a pair keeps every pair at or above a bound that the pair and the list respect. |
| MainDashboard.InsertByValueSorted | src/main.py:147 | Inserting into a list sorted by value keeps it sorted. |
| MainDashboard.InsertByValuePermutes | src/main.py:147 | Inserting adds exactly that pair and loses none. |
| MainDashboard.SortByValue | src/main.py:147 | The sort orders by numeric value, ascending, and is a permutation. |
| MainDashboard.PiePairs | src/main.py:139-143 | At most one pair per row, and no pair has an empty answer. |
| MainDashboard.PiePairsMembers | src/main.py:139-143 | The counted pairs are exactly the (raw answer, value) pairs of rows with a non-empty answer. |
| MainDashboard.PiePairsLine | src/main.py:139-143 | One row gives its (raw answer, value) pair when its answer is not empty, and nothing otherwise. |
| MainDashboard.PiePairsAppend | src/main.py:139-143 | The pairs of two stretches of rows are those of the first followed by those of the second. |
| MainDashboard.PiePairsCountsAppend | src/main.py:139-143 | The pair counts of two stretches of rows add up, so each pair's count is the number of rows that gave it. |
| MainDashboard.SlicesOf | src/main.py:143-147 | The slices are sorted by value, and no (answer, value) pair appears twice. Each slice's count is that pair's number of occurrences, which is at least one. Every occurring pair has a slice. |
| MainDashboard.PieSnapshot | src/main.py:138-147 | The same four properties, for the pairs of the most recent week. |
| MainDashboard.PieSnapshotSlices | src/main.py:138-147 | A slice exists for (answer, value) exactly when some row of the most recent week gave that non-empty answer with that value. |
| MainDashboard.CountAnswerIsMultiplicity | src/main.py:168-176 | The count looked up for an answer is that answer's number of occurrences among the week's non-empty answers. |
| MainDashboard.AnyAnsweredIsNonEmpty | src/main.py:177 | `len(results) > 0` exactly when some row of the week gave a non-empty answer. |
| MainDashboard.PictureChoice | src/main.py:167-185 | A dog only when the week has more "Dogs" than "Cats" answers and at least one "Cats"; a cat symmetrically; a KeyError only when the week has some answer. |
| MainDashboard.PictureRule | src/main.py:176-185 | Each outcome holds exactly under its own condition. More Dogs than Cats gives a dog; more Cats than Dogs gives a cat. No answers, or equal counts, give the coin flip. Answers without "Dogs" raise KeyError("Dogs"); with "Dogs" but without "Cats", KeyError("Cats"). |
| MainDashboard.TopPanelFor | src/main.py:112-201 | A bar question gets the bar counts of the most recent week, a pie question the pie slices of that week, a picture question the picture rule over that week, and only an unlisted question the blank image. The bar counts add up to the rows of the most recent week. |
| MainDashboard.BottomPanelFor | src/main.py:208-254 | A question gets a trend exactly when it is a bar or pie question: the per-(week, Role) mean trend for a bar question, the per-week mean trend for a pie question. |
| ReportDashboard.LoadReport | src/weekly.py:20-37 | The same load as src/monthly.py:21-38. It succeeds exactly when the sheet has a response and every listed answer coerces. A sheet with no responses fails with `NoDates`; otherwise a failure reports the first cell to raise, as `CreateNumericColumns` does. After success there is a most recent week. Every survey row is kept with its other columns unchanged. The missing set is the set of Names without a Role after the left merge. Afterwards every row has a Role: "Developer" for exactly the rows that had none. |
| ReportDashboard.ReportKeepsEveryone | src/monthly.py:34-38 | A Name that answered but is absent from Roles.csv, or has an empty Role there, is reported missing and appears in the table as "Developer". |
| ReportDashboard.KeptAsDeveloper | src/weekly.py:33-37 | For any table: a Name in it that is absent from Roles.csv, or has an empty Role there, is missing after the left merge and appears after filling with the Role "Developer". |
| ReportDashboard.FreeTextSnapshot | src/monthly.py:78-80 | There is at most one answer per row. |
| ReportDashboard.FreeTextSnapshotIsWeekAnswers | src/monthly.py:78-80 | There is exactly one answer per row of the most recent week, and the i-th is the raw, uncoerced answer of the i-th row of that week. |
| ReportDashboard.FreeTextSnapshotAppend | src/monthly.py:78-80 | The snapshot keeps row order. |
| ReportDashboard.ReportBottomPanel | src/monthly.py:111-127 | A free-text or picture question, and a question in no list, gets no trend. A bar question gets the per-(week, Role) mean trend: one point per (week, Role) present, each the mean of that group. A pie question gets the per-week mean trend: one point per week present, each the mean of that week's rows. |

## Left out

- The Dash application, its layout and callback wiring, the plotly figures, and their colours, axes and ticks are not modelled. They are UI glue over external libraries. The panels are modelled as the data they would draw.
- Reading files is not modelled: `glob`, `os.path.getctime`, `pd.read_excel`, `pd.read_csv` and `read_most_recent_file`. The spreadsheet rows and the Roles.csv lines are parameters.
- Sending the e-mail is not modelled (network I/O). The model records only whether it is attempted (`emailAttempted`) and the list of Names.
- Fetching and drawing pictures is not modelled: `get_cat`, `get_dog`, `io.imread`, and the PIL text drawing of the free-text panel. The picture rule returns which animal to fetch.
- `random.random()` is not modelled as a probability. A tie or an empty week is the outcome `Random`.
- Printing the names missing from Roles.csv is not modelled. The model keeps the set of names; the list built from it is in no defined order.
- Means are not divided. pandas computes floating-point means; the model keeps each mean as its (sum, count) pair.
- Coercion handles only ASCII text. `int()` strips codes 9-13 and 32, as the model does, and never the information separators (codes 28-31); in text holding a non-ASCII character it would also strip non-ASCII Unicode whitespace (such as U+2003), which the model does not handle. Python's `int()` also accepts underscores between digits, non-ASCII digits and whitespace, and truncates floats. `\W` in Python 3 also treats non-ASCII letters as word characters. A `None` entry would raise an uncaught TypeError. A cell holds an integer, a text or NaN and nothing else. CPython limits conversions between `int` and `str` to 4300 decimal digits by default and raises ValueError beyond that; the model has no such limit.
- Coercion.SignedDigitsOfDecimal: the round trip holds for every integer in the model, but CPython's default 4300-digit limit on `int`/`str` conversion makes `str()` or `int()` of a longer number raise instead.
- Coercion.CoerceRendered: likewise holds for every integer in the model, while CPython raises ValueError on an entry of more than 4300 digits.
- A question missing from a row's answers reads as an empty cell. pandas raises KeyError when the whole column is missing.
- `create_numeric_columns` is not part of this model. It is imported by src/weekly.py and src/monthly.py but not shown. `LoadReport` assumes it does what src/main.py:24-26 does.
- `create_bar_chart`, `create_pie_chart`, `get_animal_picture`, `create_time_series_chart` and `create_empty_image` are not part of this model. So the weekly and monthly bar, pie and picture snapshots are left out; the main dashboard's own versions of them are modelled.
- `weekly_questions` and `monthly_questions` are not part of this model. The report panels take the question's kind as a parameter.
- src/send_email.py is left out. Its filter repeats src/main.py:40-47, and it then calls a `send_email` that is not shown.
- MainDashboard.PieSnapshot: ties are not modelled as the source orders them. `sort_values` uses an unstable sort, so slices with equal values come in no promised order; the model fixes one order and proves only the ascending order by value. `value_counts` drops pairs with an empty answer, and so does the model.
- The monthly top panel for a question in none of its lists is left out. src/monthly.py:68-104 then returns an unbound variable.
- The monthly free-text panel calls `capitalize()` on each answer. That would fail on an empty or numeric cell, but it belongs to the drawing, which is left out.
- Merges follow one pandas row order. The inner merge keeps the survey order and repeats a row once per matching Roles.csv line, in file order. This is the order pandas 2.2 documents; older versions could group the rows by key.
