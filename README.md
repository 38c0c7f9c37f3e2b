# Food journal bot: a verified model of its logic

`bot.py` is a Telegram bot that keeps a food journal in a Google Sheet.
A user sends a text (a dish), or a photo whose dishes an OpenAI vision
model proposes and the user confirms, and each logged dish becomes one row of
the sheet with the nutrients the chat model estimated. `/report today|week|month`
reads the sheet back, totals the user's rows for the period and draws a
gap-free chart of 30 days, 12 ISO weeks or 12 months.

This project models, in Dafny, the logic under that glue:

- **The report** (`handle_report`). The model covers:
  - the period keyword and its start day;
  - the row filter, with both date spellings `strptime` accepts;
  - the totals over `[period_start, today]`;
  - the chart buckets, which are pandas' group-sum and left join with zero fill.

  Dates are day numbers as `date.toordinal()` counts them. Weekday, Monday
  and ISO week are computed from them. Nutrient amounts are exact reals.
  Modules: `Calendar`, `DateText`, `Numbers`, `Report`.
- **Photo recognition post-processing** (`get_food_info`, `detect_food_in_photo`).
  The model covers:
  - the brace slice that cuts the JSON object out of the model's answer;
  - the item loop, which lower-cases and strips each name, drops empty and
    repeated names, formats `"name amount"` and truncates to `max_items`.

  Module: `Recognition`.
- **The confirmation state machine** (`handle_text`, `handle_photo`,
  `button_handler`, `log_to_sheets`). Class `Confirmation.Bot` holds:
  - `PENDING_CONFIRMATIONS` as a `map<int, seq<string>>`;
  - the journal as an append-only `seq` of rows.

  Pure functions state which rows each event appends. A lemma shows that a
  logged row is read back by the report as the record it logged.
- `Text` holds the Python string operations these rely on:
  - `strip`, `lower`, `find`/`rfind`, slicing and `join`;
  - `str(int)` and zero-padded fields.

The clock (`datetime.now()`) and the sheet's contents are parameters. So
are the OpenAI answers: `ask` is the content returned for a prompt, or `None`
where the request raised. `decode` is `json.loads` together with the lookups
after it, or `None` where those raise.

Details of `bot.py` that the model keeps:

- A non-affirmative text sent while a photo proposal is pending is logged
  as a dish of its own through `get_food_info`.
- Only `accept_photo` and a text message remove a pending proposal.
  `manual_input` sets it to an empty list. The report and help buttons leave it alone.
- A journal row has ten columns: date, time, id, name, dish and five
  amounts. A failed lookup still appends a row, with five empty amount
  cells, and the report later skips that row because its calories cell is empty.
- Photo recognition is one chat-model request whose answer holds a JSON object.

## Model

| member | source | states |
|---|---|---|
| Report.ParsePeriodOfKeyword | bot.py:264-278 | a period is selected exactly when the lowered argument is its keyword |
| Report.ParsePeriodIgnoresCase | bot.py:264 | the keyword is read regardless of letter case |
| Report.ParsePeriodExamples | bot.py:264-278 | `WEEK` and `Month` select their periods; a Russian word selects none |
| Report.PeriodStartFacts | bot.py:267-272 | the period starts on or before today: today itself, a Monday less than a week back, or the first of today's month with `day - 1` days between |
| Report.ReportArgumentErrors | bot.py:256-278 | the usage reply comes exactly when there is no argument; the unknown-period reply comes exactly when the lowered argument is none of the three keywords |
| Report.RowRecordKept | bot.py:282-308 | a row gives a record iff it has ten cells, its stripped id cell equals the user's id, its calories cell is not blank and its date parses; the record holds that date and the five `safe_float` values |
| Report.KeptRecordsSound | bot.py:282-308 | every kept record comes from some row of the user |
| Report.KeptRecordsComplete | bot.py:282-308 | every row that gives a record has that record kept |
| Report.KeptRecordsIgnoresOthers | bot.py:284-286 | appending a row of another user, or a short row, keeps the records unchanged |
| Report.CollectRecords | bot.py:280-308 | the row loop returns exactly the kept records, in sheet order |
| Report.InWindow | bot.py:320 | a record is in the window iff its day lies between the bounds, and each such record is kept as often as it occurs |
| Report.WindowedRecordCounted | bot.py:320 | a record dated inside the window adds its amounts to the totals, even when an equal record is already there |
| Report.EarlyRecordIgnored | bot.py:320 | a record dated before the period start does not change the totals |
| Report.TotalSnoc | bot.py:391-395 | the column sums grow by each record's amounts |
| Report.FutureRecordIgnored | bot.py:320 | a record dated after today does not change the totals |
| Report.PandasDays | bot.py:318 | the first and last days a pandas timestamp can hold are 1677-09-22 and 2262-04-11 |
| Report.RespondNoData | bot.py:310-326 | the "no data" reply comes iff the user has no usable row; the "no data for the period" reply comes iff there are rows but none dated from the period start to today |
| Report.RespondSummary | bot.py:310-404 | a summary carries the keyword and the totals of the period's records; it also carries a chart of 30/12/12 buckets that ends with today's bucket, starts no later than the period, and sums to the totals of the chart window |
| Report.ReportSummary | bot.py:255-404 | a summary answers a known keyword, names it lowered, and is the summary of the user's kept records |
| Report.ReportIgnoresOthers | bot.py:280-286 | rows of other users never change the report |
| Report.HandleReport | bot.py:255-404 | the handler's reply is the report function's value |
| Report.ChartShape | bot.py:329-369 | the chart has 30, 12 or 12 buckets, and bucket `i` is keyed by its first day |
| Report.BucketStartRange | bot.py:330-358 | every bucket starts between the chart start and today, inside the pandas range |
| Report.WeekBucketIsMonday | bot.py:339-347 | every weekly bucket starts on a Monday |
| Report.BucketsConsecutive | bot.py:329-366 | buckets follow each other without gaps: the next day, the next Monday, or the first of the next month |
| Report.LastBucketHoldsToday | bot.py:329-366 | the last bucket is today's day, ISO week or month |
| Report.BucketKeysDistinct | bot.py:338-366 | no two buckets share a key: 12 distinct ISO (year, week) pairs, 12 distinct months |
| Report.BucketIndex | bot.py:331-366 | every day of the chart window falls into a bucket |
| Report.BucketIndexKey | bot.py:331-366 | that bucket's key is the day's own key, so each windowed record lands in exactly one bucket |
| Report.KeyInSnoc | bot.py:332-362 | grouping over one more distinct key adds that key's group sum |
| Report.KeyInAll | bot.py:332-362 | grouping over keys covering every record keeps them all |
| Report.ChartPrefixSum | bot.py:332-366 | the first `k` buckets sum to the records whose key is among the first `k` keys |
| Report.ChartConservation | bot.py:331-369 | the buckets sum to the totals of the chart window: nothing lost, nothing counted twice |
| Report.ChartZeroFill | bot.py:334-367 | a bucket no windowed record falls into is zero |
| Report.PeriodInsideChart | bot.py:267-359 | the chart window contains the period |
| Calendar.DayNumberOrder | bot.py:320 | comparing day numbers compares dates, and equal numbers mean equal dates |
| Calendar.FromDayNumberOfDate | bot.py:318 | day number and date convert back and forth |
| Calendar.Monday | bot.py:270 | `today - weekday` is a Monday at most six days back, with no Monday in between |
| Calendar.MondayOfWeek | bot.py:343-348 | all days from a Monday to the next Sunday have that Monday |
| Calendar.IsoWeekOfMonday | bot.py:343-348 | a day and the Monday of its week have the same ISO week |
| Calendar.IsoWeekInjective | bot.py:348-352 | two Mondays with the same ISO (year, week) are the same day |
| Calendar.MonthWindow | bot.py:357-360 | a date is on or after the first of month `k` iff its month index is at least `k` |
| Calendar.MonthOfStart | bot.py:358 | the first day of month `k` is that month's first date and lies in month `k` |
| Calendar.StartOfOwnMonth | bot.py:272 | `replace(day=1)` goes back `day - 1` days to the first of the same month |
| DateText.IsoDateRoundTrip | bot.py:293 | the date the log writes as `%Y-%m-%d` parses back to the same date |
| DateText.DotDateRoundTrip | bot.py:296 | a date written `DD.MM.YYYY` parses back to the same date |
| DateText.BothSpellingsAgree | bot.py:292-298 | `2024-05-01` and `01.05.2024` are the same date |
| DateText.LenientFields | bot.py:293-296 | `strptime` also accepts one-digit month and day fields, and a space-padded day |
| DateText.ImpossibleDayRejected | bot.py:293-298 | 29 February of every common year is rejected, written `YYYY-02-29` or `29.02.YYYY` |
| DateText.TrailingDataRejected | bot.py:293-298 | any date in either spelling followed by any further text is rejected |
| DateText.YearZeroRejected | bot.py:293-298 | year 0 is rejected |
| DateText.FormatTimeReadsBack | bot.py:151 | the time cell's three two-digit fields read back as the hour, minute and second |
| DateText.DayLabelReadsBack | bot.py:336 | the daily label's fields read back as the day's day, month and year modulo 100 |
| DateText.MonthLabelReadsBack | bot.py:366 | the monthly label's fields read back as the month and the year modulo 100 |
| Numbers.SafeFloatOfInteger | bot.py:141-145 | a whole number's digits read back as that number |
| Numbers.SafeFloatDecimalComma | bot.py:141-145 | for any digit strings `x` and `y`, not both empty, `x,y` and `x.y` both read as `x` plus `y` scaled by `10^len(y)`, leading zeros of the fraction included |
| Numbers.SafeFloatOfText | bot.py:141-145 | any cell without a digit, and any cell with two decimal marks, reads as 0 |
| Numbers.SafeFloatOfTextExamples | bot.py:141-145 | an empty cell, `n/a` and `1.000,5` read as 0 |
| Text.StripIdempotent | bot.py:284-289 | stripping twice is stripping once |
| Text.LowerIdempotent | bot.py:264 | lowering twice is lowering once, and lowering keeps white space where it was |
| Text.Find | bot.py:118 | `find` gives the first position of the character, or -1 when it is absent |
| Text.RFind | bot.py:119 | `rfind` gives the last position of the character, or -1 when it is absent |
| Text.IntToStringInjective | bot.py:263 | different ids have different decimal strings |
| Recognition.BraceSliceExists | bot.py:117-120 | a slice is taken iff the answer holds both `{` and `}` |
| Recognition.BraceSliceBounds | bot.py:117-121 | with the first `{` before the last `}`, the slice runs from one to the other inclusive, with no `{` before it and no `}` after it |
| Recognition.BraceSliceOfWrapped | bot.py:117-121 | a JSON object surrounded by brace-free text is cut out whole |
| Recognition.BraceSliceReversed | bot.py:117-121 | any answer whose last `}` comes before its first `{` gives the empty slice |
| Recognition.FoodInfoNeedsBraces | bot.py:95-139 | `get_food_info` yields a product only from an answer holding both braces, decoded from its slice |
| Recognition.FormatDetected | bot.py:223-242 | the item loop returns the formatted kept products truncated to `max_items`, or `[]` when an item raises |
| Recognition.DetectFoodInPhoto | bot.py:212-252 | the photo path returns the detection function's value |
| Recognition.CollectNoneAfter | bot.py:226-250 | once an item raises, the whole loop yields `[]` |
| Recognition.CollectSound | bot.py:226-240 | kept names are distinct and non-empty, and each kept product is some item's lowered and stripped form |
| Recognition.CollectComplete | bot.py:226-240 | every item with a non-empty name has that name kept, and no item of a successful run raises |
| Recognition.CollectKeepsFirst | bot.py:238-240 | a kept product is the first item carrying its name; later duplicates are dropped |
| Recognition.CollectInOrder | bot.py:226-242 | the kept products follow the order in which their names first occur, so `[:max_items]` keeps the names met first |
| Recognition.DefaultAmountApplies | bot.py:232-236 | a missing amount, or an item that is not a dictionary, gets `1 порция` |
| Recognition.DetectedEntriesShape | bot.py:240-242 | at most `max_items` entries, each `name + " " + amount` of the kept products in order |
| Recognition.RaisingItemEmptiesResult | bot.py:231-250 | one item whose name or amount is no string empties the result |
| Recognition.DetectFoodBounds | bot.py:217-252 | no reply or no braces gives `[]`, and never more than `max_items` entries |
| Recognition.PyPrefix | bot.py:242 | Python's `[:n]`: the first `n` elements, or all but the last `-n` |
| Confirmation.DisplayName | bot.py:412 | the name column is never empty: the username, or the id when it is absent or empty |
| Confirmation.LoggedRowReadBack | bot.py:148-306 | a logged row is read back by its own user's report as a record of its date and amounts when it was priced, and is skipped otherwise or for another user |
| Confirmation.LoggedRowReported | bot.py:148-308 | a priced logged row is among its user's kept records |
| Confirmation.ReportButton | bot.py:585-593 | `report_today`, `report_week` and `report_month` pass `today`, `week` and `month`, which the report accepts; any other data runs no report |
| Confirmation.TextRowsCases | bot.py:416-489 | a text appends at most one row, and none iff it confirms an empty proposal; the dish is the joined proposal for a confirmation and the text otherwise; the row carries the looked-up amounts |
| Confirmation.AcceptIsConfirmation | bot.py:596-624 | `accept_photo` logs what an affirmative text would, and nothing when no proposal is pending |
| Confirmation.PhotoThenConfirm | bot.py:416-432 | after a photo with seen items, confirming logs exactly one row whose dish is `", ".join(detected)` |
| Confirmation.Bot.constructor | bot.py:68 | no proposal is pending and the journal is empty |
| Confirmation.Bot.LogEntry | bot.py:148-155 | exactly one row is appended, with the lookup's amounts or empty cells |
| Confirmation.Bot.HandleText | bot.py:409-489 | the sender's proposal is removed, other users' are untouched, and the journal grows by exactly the text's rows |
| Confirmation.Bot.HandlePhoto | bot.py:496-522 | a failed download changes nothing; otherwise the sender's proposal becomes the detected items, replacing any earlier one, and the journal is untouched |
| Confirmation.Bot.Button | bot.py:581-636 | report and help buttons change nothing; `accept_photo` removes the proposal and logs its rows; `manual_input` sets an empty proposal; other data is ignored |

## Left out

- OpenAI requests (prompts, model names, base64 encoding of the photo) are not modelled. Their answers are the parameters `ask` and `reply`. `ask` is a function, so the model assumes the chat model answers the same prompt the same way.
- `json.loads`, `data.get(...)` and `float(...)` on the decoded values are the `decode` parameter. Its `None` stands for the `JSONDecodeError` and the other exceptions these raise.
- Google Sheets I/O is not modelled. The sheet is a sequence of string rows, and the way Sheets renders a written number is the `cell` parameter of `Confirmation.SheetCells`.
- Confirmation.SheetCells: the id column is assumed to read back as `str(user_id)`. This holds as long as the sheet shows whole numbers in plain notation.
- Chart drawing and saving with matplotlib, and the texts of the replies, are output only. The `:.0f`/`:.1f` formatting and `.title()` are not modelled.
- `safe_float` reads decimal literals with an optional sign and one decimal point. Exponents, `inf`, `nan`, underscores and non-ASCII digits, which `float()` also accepts, are read as failures. Values are exact reals, not IEEE doubles.
- `str.lower` is modelled for ASCII, Latin-1 and basic Cyrillic letters. Other scripts are left unchanged.
- `strptime` is modelled for ASCII digits only.
- `datetime.now()` is a parameter: `today` for the report, `at` for the log.
- The keepalive HTTP server and its thread, the environment configuration, the credentials file, and the application bootstrap are not modelled.
- The Telegram transport is not modelled. This covers sending, replying, editing and answering messages, keyboards, `/start`, `/menu` and the help text.
- `handle_photo`'s recognition-error branch is not modelled: `detect_food_in_photo` catches every exception that can arise in it, so that branch cannot be reached. Its only statements outside its `try`, the conversion of the downloaded bytes and their base64 encoding, cannot raise.
- Records dated outside pandas' timestamp range (1677-09-22 to 2262-04-11) make `pd.to_datetime` raise. So does a chart window whose `pd.date_range` leaves that range while every record lies inside it. In both cases the handler sends nothing, and the model answers `Crashed`.
- Recognition.DetectFood: a `food_items` value that is a string is iterated character by character. `decode` produces the corresponding `Listed` value, so that case is not modelled separately.
