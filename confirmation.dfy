/**
 * The conversation around one meal: a text message is logged as a dish,
 * a photo proposes the dishes the vision model saw and waits in
 * `PENDING_CONFIRMATIONS` for the user's answer, and the inline buttons
 * accept that proposal, ask for a manual entry or request a report.
 *
 * `Bot` holds the two pieces of state the handlers change: the pending
 * proposals by user id, and the rows appended to the journal sheet by
 * `log_to_sheets`. The chat model is a pair of parameters: `ask`, the
 * content it answers for a prompt (`None` where the request raised), and
 * `decode`, `json.loads` with the lookups after it. The clock is the
 * `at` parameter.
 */
module Confirmation {
  import opened Wrappers
  import opened Text
  import opened Calendar
  import opened DateText
  import opened Numbers
  import opened Report
  import opened Recognition

  // ---------------------------------------------------------------------
  // Journal rows

  /** The moment `datetime.now()` gives `log_to_sheets`. */
  datatype Moment = Moment(date: CalDate, hour: nat, minute: nat, second: nat)

  type Now = m: Moment | m.hour < 24 && m.minute < 60 && m.second < 60 witness Moment(Date(1, 1, 1), 0, 0, 0)

  /**
   * One row `log_to_sheets` appends: date, time, user id, user name, dish,
   * and the five amounts, or five empty cells when the lookup failed.
   */
  datatype LogRow = LogRow(at: Now, userId: int, username: string, dish: string, amounts: Option<Nutrients>)

  /** `from_user.username or str(user_id)`: an absent or empty name falls back to the id. */
  function DisplayName(user: int, username: Option<string>): (r: string)
    ensures r != ""
    ensures username.Some? && username.value != "" ==> r == username.value
    ensures r != IntToString(user) ==> username.Some? && username.value == r
  {
    if username.Some? && username.value != "" then username.value else IntToString(user)
  }

  /** The row for `dish`, carrying the amounts of the product the lookup found, if any. */
  function EntryRow(at: Now, user: int, name: string, dish: string, info: Option<FoodInfo>): LogRow
  {
    LogRow(at, user, name, dish, if info.Some? then Some(info.value.amounts) else None)
  }

  /**
   * The ten cells the sheet later gives back for a row: the date and time
   * as written, the id as its decimal digits, and the amounts as `cell`
   * renders a number, or empty.
   */
  function SheetCells(row: LogRow, cell: real -> string): (r: seq<string>)
    ensures |r| == 10
  {
    var amounts := match row.amounts
      case None => ["", "", "", "", ""]
      case Some(a) => [cell(a.grams), cell(a.cal), cell(a.prot), cell(a.fat), cell(a.carb)];
    [FormatIsoDate(row.at.date), FormatTime(row.at.hour, row.at.minute, row.at.second),
     IntToString(row.userId), row.username, row.dish] + amounts
  }

  /** `cell` renders `x` as text `safe_float` reads back as `x`. */
  predicate ReadsBack(cell: real -> string, x: real)
  {
    SafeFloat(Strip(cell(x))) == x
  }

  /**
   * What the report reads from a logged row: the requesting user's priced
   * row becomes a record of its date and amounts; a row without amounts,
   * or another user's row, is skipped.
   */
  lemma LoggedRowReadBack(row: LogRow, cell: real -> string, user: int)
    requires row.amounts.Some? ==>
               var a := row.amounts.value;
               && ReadsBack(cell, a.grams) && ReadsBack(cell, a.cal) && ReadsBack(cell, a.prot)
               && ReadsBack(cell, a.fat) && ReadsBack(cell, a.carb) && Strip(cell(a.cal)) != ""
    ensures RowRecord(SheetCells(row, cell), IntToString(user))
         == if user == row.userId && row.amounts.Some? then Some(Record(DayNumber(row.at.date), row.amounts.value)) else None
  {
    hide Strip, FormatIsoDate, IntToString, ParseDate, SafeFloat, DayNumber, SheetCells, RowRecord;
    var cells := SheetCells(row, cell);
    SheetCellsFixed(row, cell);
    IsoDateRoundTrip(row.at.date);
    if IntToString(user) == IntToString(row.userId) {
      IntToStringInjective(user, row.userId);
    }
    RowRecordKept(cells, IntToString(user));
  }

  /** The date, the id and the amounts cells, and what `strip()` leaves of the first two. */
  lemma SheetCellsFixed(row: LogRow, cell: real -> string)
    ensures var cells := SheetCells(row, cell);
            && Strip(cells[0]) == FormatIsoDate(row.at.date)
            && Strip(cells[2]) == IntToString(row.userId)
            && (row.amounts.None? ==> cells[6] == "")
            && (row.amounts.Some? ==>
                  var a := row.amounts.value;
                  cells[5..] == [cell(a.grams), cell(a.cal), cell(a.prot), cell(a.fat), cell(a.carb)])
  {
    IsoDateUnpadded(row.at.date);
    IntUnpadded(row.userId);
    hide FormatIsoDate, FormatTime, IntToString, Strip;
  }

  lemma IsoDateUnpadded(d: CalDate)
    ensures Strip(FormatIsoDate(d)) == FormatIsoDate(d)
  {
    StripUnpadded(FormatIsoDate(d));
  }

  lemma IntUnpadded(n: int)
    ensures Strip(IntToString(n)) == IntToString(n)
  {
    StripUnpadded(IntToString(n));
  }

  /** A logged row reaches the report of its own user as the record of its date and amounts. */
  lemma LoggedRowReported(sheet: seq<seq<string>>, row: LogRow, cell: real -> string)
    requires row.amounts.Some?
    requires var a := row.amounts.value;
             && ReadsBack(cell, a.grams) && ReadsBack(cell, a.cal) && ReadsBack(cell, a.prot)
             && ReadsBack(cell, a.fat) && ReadsBack(cell, a.carb) && Strip(cell(a.cal)) != ""
    requires SheetCells(row, cell) in DataRows(sheet)
    ensures Record(DayNumber(row.at.date), row.amounts.value) in KeptRecords(DataRows(sheet), IntToString(row.userId))
  {
    LoggedRowReadBack(row, cell, row.userId);
    KeptRecordsComplete(DataRows(sheet), IntToString(row.userId), SheetCells(row, cell));
  }

  // ---------------------------------------------------------------------
  // What a message or a button press appends

  /** The answers `handle_text`, `handle_photo` and `button_handler` send. */
  datatype Answer =
    | Logged(dish: string, info: Option<FoodInfo>)  // the product's values, or "not found"; the row is in the journal
    | PhotoUnreadable                               // a confirmation of a photo where nothing was seen
    | PhotoDataMissing                              // `accept_photo` with no pending proposal
    | DownloadFailed
    | NothingRecognised
    | Proposal(guess: string)                       // the seen items, joined, with the two buttons
    | ManualPrompt
    | HelpText
    | ReportReply(reply: Reply)
    | Ignored                                       // an unknown button

  const Affirmatives: set<string> := {"да", "ок", "ok", "yes", "верно", "правильно"}

  /** `text.lower().strip()` is one of the words that confirm a proposal. */
  predicate IsAffirmative(text: string)
  {
    Strip(Lower(text)) in Affirmatives
  }

  /**
   * The rows a text message appends. A confirmation of a pending proposal
   * logs the proposal's items joined by `", "`, or nothing when the
   * proposal is empty; any other text is logged as the dish.
   */
  function TextRows(pending: map<int, seq<string>>, user: int, name: string, text: string, at: Now,
                    ask: string -> Option<string>, decode: string -> Option<FoodInfo>): seq<LogRow>
  {
    var confirms := user in pending && IsAffirmative(text);
    var dish := if confirms then Join(", ", pending[user]) else text;
    if confirms && pending[user] == [] then []
    else [EntryRow(at, user, name, dish, FoodInfoOf(ask(dish), decode))]
  }

  /** The rows `accept_photo` appends: the pending items joined, when there are any. */
  function AcceptRows(pending: map<int, seq<string>>, user: int, name: string, at: Now,
                      ask: string -> Option<string>, decode: string -> Option<FoodInfo>): seq<LogRow>
  {
    if user in pending && pending[user] != [] then
      var dish := Join(", ", pending[user]);
      [EntryRow(at, user, name, dish, FoodInfoOf(ask(dish), decode))]
    else []
  }

  /** The answer to a confirmation or a logged text: the dish and its lookup, or the unreadable-photo notice. */
  function AnswerFor(rows: seq<LogRow>, ask: string -> Option<string>, decode: string -> Option<FoodInfo>): Answer
  {
    if rows == [] then PhotoUnreadable else Logged(rows[0].dish, FoodInfoOf(ask(rows[0].dish), decode))
  }

  /** The keyword `button_handler` passes to `handle_report` for a report button. */
  function ReportButton(data: string): (r: Option<string>)
    ensures r.Some? ==> ParsePeriod(r.value).Some?
    ensures data == "report_today" ==> r == Some("today")
    ensures data == "report_week" ==> r == Some("week")
    ensures data == "report_month" ==> r == Some("month")
    ensures r.None? <==> data !in {"report_today", "report_week", "report_month"}
  {
    ParsePeriodExamples();
    if data == "report_today" then Some("today")
    else if data == "report_week" then Some("week")
    else if data == "report_month" then Some("month")
    else None
  }

  /**
   * A text message appends at most one row, and none exactly when it
   * confirms an empty proposal; the row's dish is the joined proposal for
   * a confirmation and the text itself otherwise, and it carries the
   * amounts of the product the lookup found.
   */
  lemma TextRowsCases(pending: map<int, seq<string>>, user: int, name: string, text: string, at: Now,
                      ask: string -> Option<string>, decode: string -> Option<FoodInfo>)
    ensures var rows := TextRows(pending, user, name, text, at, ask, decode);
            && |rows| <= 1
            && (rows == [] <==> user in pending && IsAffirmative(text) && pending[user] == [])
            && (rows != [] ==>
                  var dish := if user in pending && IsAffirmative(text) then Join(", ", pending[user]) else text;
                  var info := FoodInfoOf(ask(dish), decode);
                  && rows[0].dish == dish && rows[0].userId == user && rows[0].username == name && rows[0].at == at
                  && (rows[0].amounts.Some? <==> info.Some?)
                  && (info.Some? ==> rows[0].amounts.value == info.value.amounts))
  {
  }

  /**
   * `accept_photo` does what typing a confirmation does when a proposal is
   * pending, and logs nothing when none is.
   */
  lemma AcceptIsConfirmation(pending: map<int, seq<string>>, user: int, name: string, text: string, at: Now,
                             ask: string -> Option<string>, decode: string -> Option<FoodInfo>)
    requires IsAffirmative(text)
    ensures AcceptRows(pending, user, name, at, ask, decode)
         == if user in pending then TextRows(pending, user, name, text, at, ask, decode) else []
  {
  }

  /**
   * After a photo whose items were seen, a confirmation logs exactly one
   * row whose dish is the proposal `", ".join(detected)`, whatever was
   * pending for the user before.
   */
  lemma PhotoThenConfirm(pending: map<int, seq<string>>, user: int, name: string, detected: seq<string>, text: string,
                         at: Now, ask: string -> Option<string>, decode: string -> Option<FoodInfo>)
    requires detected != [] && IsAffirmative(text)
    ensures var rows := TextRows(pending[user := detected], user, name, text, at, ask, decode);
            && |rows| == 1 && rows[0].dish == Join(", ", detected)
            && rows == AcceptRows(pending[user := detected], user, name, at, ask, decode)
  {
    AcceptIsConfirmation(pending[user := detected], user, name, text, at, ask, decode);
  }

  // ---------------------------------------------------------------------
  // The bot's state

  /** A photo's download: it failed, or it gave the vision model's reply (`None` where that request raised). */
  datatype Download = Failed | Fetched(reply: Option<string>)

  /** `detect_food_in_photo`'s default `max_items`. */
  const MaxItems := 6

  class Bot {
    /** `PENDING_CONFIRMATIONS`: the proposal waiting for each user's answer. */
    var pending: map<int, seq<string>>
    /** The rows appended to the journal sheet, oldest first. */
    var log: seq<LogRow>

    constructor()
      ensures pending == map[] && log == []
    {
      pending := map[];
      log := [];
    }

    /** `get_food_info` for `dish`, then `log_to_sheets`, then the reply naming the dish. */
    method LogEntry(user: int, name: string, dish: string, at: Now,
                    ask: string -> Option<string>, decode: string -> Option<FoodInfo>) returns (answer: Answer)
      modifies this`log
      ensures log == old(log) + [EntryRow(at, user, name, dish, FoodInfoOf(ask(dish), decode))]
      ensures answer == Logged(dish, FoodInfoOf(ask(dish), decode))
    {
      var info := FoodInfoOf(ask(dish), decode);
      if info.Some? {
        log := log + [LogRow(at, user, name, dish, Some(info.value.amounts))];
      } else {
        log := log + [LogRow(at, user, name, dish, None)];
      }
      answer := Logged(dish, info);
    }

    /**
     * `handle_text`: a pending proposal is removed whatever the text says;
     * the text then confirms it or is logged as a dish of its own.
     */
    method HandleText(user: int, username: Option<string>, text: Option<string>, at: Now,
                      ask: string -> Option<string>, decode: string -> Option<FoodInfo>) returns (answer: Answer)
      modifies this
      ensures pending == old(pending) - {user}
      ensures log == old(log) + TextRows(old(pending), user, DisplayName(user, username), text.GetOr(""), at, ask, decode)
      ensures answer == AnswerFor(TextRows(old(pending), user, DisplayName(user, username), text.GetOr(""), at, ask, decode), ask, decode)
    {
      var name := DisplayName(user, username);
      var message := text.GetOr("");
      if user in pending {
        var detected := pending[user];
        pending := pending - {user};
        if IsAffirmative(message) {
          if detected != [] {
            var combined := Join(", ", detected);
            answer := LogEntry(user, name, combined, at, ask, decode);
          } else {
            answer := PhotoUnreadable;
          }
        } else {
          answer := LogEntry(user, name, message, at, ask, decode);
        }
        return;
      }
      answer := LogEntry(user, name, message, at, ask, decode);
    }

    /**
     * `handle_photo`: a failed download changes nothing; otherwise the
     * user's proposal becomes the detected items, empty or not, replacing
     * any earlier one, and the answer shows them.
     */
    method HandlePhoto(user: int, download: Download, decode: string -> Option<FoodItems>) returns (answer: Answer)
      modifies this`pending
      ensures download.Failed? ==> pending == old(pending) && answer == DownloadFailed
      ensures download.Fetched? ==>
                var detected := DetectFood(download.reply, decode, MaxItems);
                && pending == old(pending)[user := detected]
                && answer == if detected == [] then NothingRecognised else Proposal(Join(", ", detected))
    {
      if download.Failed? {
        return DownloadFailed;
      }
      var detected := DetectFoodInPhoto(download.reply, decode, MaxItems);
      if detected == [] {
        pending := pending[user := []];
        return NothingRecognised;
      }
      pending := pending[user := detected];
      answer := Proposal(Join(", ", detected));
    }

    /**
     * `button_handler`: the report buttons run the report for their period
     * and the caller's id, `accept_photo` removes the proposal and logs it,
     * `manual_input` leaves an empty proposal; nothing else changes state.
     */
    method Button(user: int, username: Option<string>, data: string, at: Now, today: CalDate,
                  sheet: seq<seq<string>>, ask: string -> Option<string>, decode: string -> Option<FoodInfo>)
      returns (answer: Answer)
      modifies this
      ensures ReportButton(data).Some? ==>
                && pending == old(pending) && log == old(log)
                && answer == ReportReply(ReportOf([ReportButton(data).value], IntToString(user), today, sheet))
      ensures data == "help" ==> pending == old(pending) && log == old(log) && answer == HelpText
      ensures data == "accept_photo" ==>
                && pending == old(pending) - {user}
                && log == old(log) + AcceptRows(old(pending), user, DisplayName(user, username), at, ask, decode)
                && answer == if user in old(pending)
                             then AnswerFor(AcceptRows(old(pending), user, DisplayName(user, username), at, ask, decode), ask, decode)
                             else PhotoDataMissing
      ensures data == "manual_input" ==> pending == old(pending)[user := []] && log == old(log) && answer == ManualPrompt
      ensures ReportButton(data).None? && data !in {"help", "accept_photo", "manual_input"} ==>
                pending == old(pending) && log == old(log) && answer == Ignored
    {
      var keyword := ReportButton(data);
      if keyword.Some? {
        var reply := HandleReport([keyword.value], IntToString(user), today, sheet);
        return ReportReply(reply);
      } else if data == "help" {
        return HelpText;
      } else if data == "accept_photo" {
        var name := DisplayName(user, username);
        if user in pending {
          var detected := pending[user];
          pending := pending - {user};
          if detected != [] {
            var combined := Join(", ", detected);
            answer := LogEntry(user, name, combined, at, ask, decode);
          } else {
            answer := PhotoUnreadable;
          }
        } else {
          answer := PhotoDataMissing;
        }
      } else if data == "manual_input" {
        pending := pending[user := []];
        answer := ManualPrompt;
      } else {
        answer := Ignored;
      }
    }
  }
}
