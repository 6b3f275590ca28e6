/** The JSONP RSVP endpoint: validate the submitted form, normalise it into an
    RSVP record, locate the target worksheet, append one ten-column row, and
    answer with a success or failure payload, wrapped for JSONP when the
    caller names a callback. */
module Rsvp {
  import opened PyStrings
  import opened Sheets

  const DEFAULT_SPREADSHEET_NAME := "RSVP Responses"
  const WORKSHEET_NAME := "Responses"

  const FULL_NAME_REQUIRED := "Full name is required"
  const SUBMITTED := "RSVP submitted successfully!"
  // The two long messages are written as two literals so that the verifier
  // can read their first character (used by MessageStartsWith).
  const SHEET_NOT_FOUND := "Google Sheet not found. " + "Check spreadsheetId and sharing permissions."
  const WORKSHEET_NOT_FOUND := "Worksheet '" + WORKSHEET_NAME + "' not found. Check the worksheet name."
  const SUBMIT_ERROR_PREFIX := "An error occurred " + "while submitting your RSVP: "

  /** The query string of one GET request, one field per parameter. */
  datatype Query = Query(
    spreadsheetId: string,
    fullName: string,
    dietaryRequirements: Option<string>,
    rehearsalDinner: Option<string>,
    ceremony: Option<string>,
    brunch: Option<string>,
    plus1Name: Option<string>,
    plus1DietaryRequirements: Option<string>,
    plus1RehearsalDinner: Option<string>,
    plus1Ceremony: Option<string>,
    plus1Brunch: Option<string>,
    timestamp: Option<string>,
    callback: Option<string>)

  /** The normalised RSVP record (the response's `details`). */
  datatype RsvpDetails = RsvpDetails(
    fullName: string,
    dietaryRequirements: Option<string>,
    rehearsalDinner: Option<bool>,
    ceremony: Option<bool>,
    brunch: Option<bool>,
    plusOneName: Option<string>,
    plusOneDietaryRequirements: Option<string>,
    plusOneRehearsalDinner: Option<bool>,
    plusOneCeremony: Option<bool>,
    plusOneBrunch: Option<bool>,
    timestamp: Option<string>)

  /** The response dictionary: `{success: true, message, details}` or
      `{success: false, error}`; a failure never carries details. */
  datatype Payload =
    | Succeeded(message: string, details: RsvpDetails)
    | Rejected(error: string)

  /** What the endpoint returns: JavaScript text `callback(json)`, or the
      payload itself for the framework to serialise as JSON. */
  datatype Response = Script(body: string) | Plain(payload: Payload)

  // ----------------------------------------------------------------------
  // Helpers
  // ----------------------------------------------------------------------

  /** `flag_to_bool`: absent or empty is unspecified; any other text is a
      definite answer, true exactly for "1". */
  function FlagToBool(v: Option<string>): (r: Option<bool>)
    ensures r.None? <==> (v.None? || v.value == "")
    ensures r == Some(true) <==> v == Some("1")
    ensures r == Some(false) <==> (v.Some? && v.value != "" && v.value != "1")
  {
    if v.None? || v.value == "" then None else Some(v.value == "1")
  }

  /** Lenient decoding: a present, non-empty flag other than "1" is an
      explicit false, never unspecified. */
  lemma FlagLiterals()
    ensures FlagToBool(Some("1")) == Some(true)
    ensures FlagToBool(Some("0")) == Some(false)
    ensures FlagToBool(Some("yes")) == Some(false)
    ensures FlagToBool(Some(" 1")) == Some(false)
    ensures FlagToBool(Some("")) == None && FlagToBool(None) == None
  {
  }

  /** `bool_to_yes_no`: the spreadsheet label of a three-state answer. */
  function BoolToYesNo(v: Option<bool>): (r: string)
    ensures r == "Yes" <==> v == Some(true)
    ensures r == "No" <==> v == Some(false)
    ensures r == "" <==> v.None?
  {
    match v
    case Some(true) => "Yes"
    case Some(false) => "No"
    case None => ""
  }

  /** Reading a label back into a three-state answer. */
  function YesNoToBool(cell: string): Option<bool> {
    if cell == "Yes" then Some(true) else if cell == "No" then Some(false) else None
  }

  /** The three labels are distinct: no two answers share a cell value. */
  lemma BoolToYesNoInjective(u: Option<bool>, v: Option<bool>)
    ensures BoolToYesNo(u) == BoolToYesNo(v) ==> u == v
    ensures YesNoToBool(BoolToYesNo(u)) == u
  {
  }

  /** The callback text is exactly `name(arg)`: the name, an opening
      parenthesis, the argument untouched, a closing parenthesis. */
  predicate IsCall(text: string, name: string, arg: string) {
    && |text| == |name| + |arg| + 2
    && text[..|name|] == name
    && text[|name|] == '('
    && text[|name| + 1..|text| - 1] == arg
    && text[|text| - 1] == ')'
  }

  /** `jsonp_wrap`: with a non-empty callback the body is the call of the
      callback on the serialised payload; otherwise the payload is returned
      as it is. `json` stands for the JSON serialiser. */
  function JsonpWrap(callback: Option<string>, p: Payload, json: Payload -> string): (r: Response)
    ensures (callback.None? || callback.value == "") ==> r == Plain(p)
    ensures (callback.Some? && callback.value != "") ==> r.Script? && IsCall(r.body, callback.value, json(p))
  {
    if callback.Some? && callback.value != "" then
      var body := callback.value + "(" + json(p) + ")";
      assert body[..|callback.value|] == callback.value;
      assert body[|callback.value| + 1..|body| - 1] == json(p);
      Script(body)
    else
      Plain(p)
  }

  // ----------------------------------------------------------------------
  // Normalisation and the row
  // ----------------------------------------------------------------------

  /** `(v or "").strip() or None`: an optional text field, trimmed, with
      nothing-but-whitespace turned into absent. */
  function OptionalText(v: Option<string>): (r: Option<string>)
    ensures r.None? <==> (v.None? || AllSpace(v.value))
    ensures r.Some? ==> r.value == Strip(v.value) && r.value != "" && IsStripped(r.value)
  {
    var t := Strip(if v.Some? then v.value else "");
    if t == "" then None else Some(t)
  }

  /** `x or ""` for an optional text. */
  function OrEmpty(v: Option<string>): string {
    if v.Some? then v.value else ""
  }

  /** The record built from a query; `now` is the clock's ISO-8601 text,
      used only when the caller sent no timestamp or an empty one. */
  function Normalize(q: Query, now: string): (d: RsvpDetails)
    ensures d.fullName == Strip(q.fullName)
    ensures d.timestamp == Some(if q.timestamp.Some? && q.timestamp.value != "" then q.timestamp.value else now)
  {
    RsvpDetails(
      fullName := Strip(q.fullName),
      dietaryRequirements := OptionalText(q.dietaryRequirements),
      rehearsalDinner := FlagToBool(q.rehearsalDinner),
      ceremony := FlagToBool(q.ceremony),
      brunch := FlagToBool(q.brunch),
      plusOneName := OptionalText(q.plus1Name),
      plusOneDietaryRequirements := OptionalText(q.plus1DietaryRequirements),
      plusOneRehearsalDinner := FlagToBool(q.plus1RehearsalDinner),
      plusOneCeremony := FlagToBool(q.plus1Ceremony),
      plusOneBrunch := FlagToBool(q.plus1Brunch),
      timestamp := Some(if q.timestamp.Some? && q.timestamp.value != "" then q.timestamp.value else now))
  }

  /** An optional text is absent or a non-empty trimmed string. */
  predicate IsCleanText(v: Option<string>) {
    v.None? || (v.value != "" && IsStripped(v.value))
  }

  /** What every record that passed validation looks like. */
  predicate IsNormalized(d: RsvpDetails) {
    && d.fullName != "" && IsStripped(d.fullName)
    && IsCleanText(d.dietaryRequirements)
    && IsCleanText(d.plusOneName)
    && IsCleanText(d.plusOneDietaryRequirements)
    && d.timestamp.Some?
  }

  /** The spreadsheet row: ten cells, timestamp excluded; absent text is an
      empty cell and each answer is its Yes/No label. */
  function BuildRow(d: RsvpDetails): (row: seq<string>)
    ensures |row| == 10
  {
    [ d.fullName,
      OrEmpty(d.dietaryRequirements),
      BoolToYesNo(d.rehearsalDinner),
      BoolToYesNo(d.ceremony),
      BoolToYesNo(d.brunch),
      OrEmpty(d.plusOneName),
      OrEmpty(d.plusOneDietaryRequirements),
      BoolToYesNo(d.plusOneRehearsalDinner),
      BoolToYesNo(d.plusOneCeremony),
      BoolToYesNo(d.plusOneBrunch) ]
  }

  /** Reading a ten-cell row back into a record, given the timestamp the
      row does not hold. */
  function ReadRow(row: seq<string>, timestamp: Option<string>): RsvpDetails
    requires |row| == 10
  {
    RsvpDetails(
      row[0],
      if row[1] == "" then None else Some(row[1]),
      YesNoToBool(row[2]), YesNoToBool(row[3]), YesNoToBool(row[4]),
      if row[5] == "" then None else Some(row[5]),
      if row[6] == "" then None else Some(row[6]),
      YesNoToBool(row[7]), YesNoToBool(row[8]), YesNoToBool(row[9]),
      timestamp)
  }

  /** A validated name normalises into a well-formed record. */
  lemma NormalizeIsNormalized(q: Query, now: string)
    requires !AllSpace(q.fullName)
    ensures IsNormalized(Normalize(q, now))
  {
  }

  /** Each cell of the appended row, stated against the raw query: stripped
      texts (empty when absent or blank) and `bool_to_yes_no(flag_to_bool(raw))`
      for every answer, in the fixed column order. */
  lemma RowFromQuery(q: Query, now: string)
    ensures BuildRow(Normalize(q, now)) ==
      [ Strip(q.fullName),
        Strip(OrEmpty(q.dietaryRequirements)),
        BoolToYesNo(FlagToBool(q.rehearsalDinner)),
        BoolToYesNo(FlagToBool(q.ceremony)),
        BoolToYesNo(FlagToBool(q.brunch)),
        Strip(OrEmpty(q.plus1Name)),
        Strip(OrEmpty(q.plus1DietaryRequirements)),
        BoolToYesNo(FlagToBool(q.plus1RehearsalDinner)),
        BoolToYesNo(FlagToBool(q.plus1Ceremony)),
        BoolToYesNo(FlagToBool(q.plus1Brunch)) ]
  {
  }

  /** A normalised record loses nothing but its timestamp in its row. */
  lemma ReadBuiltRow(d: RsvpDetails)
    requires IsNormalized(d)
    ensures ReadRow(BuildRow(d), d.timestamp) == d
  {
  }

  // ----------------------------------------------------------------------
  // Locating the worksheet and reporting faults
  // ----------------------------------------------------------------------

  /** Open the spreadsheet by key; if that raises anything at all, open the
      default spreadsheet by title instead. */
  function OpenSpreadsheet(c: Client, key: string): (r: Lookup<Spreadsheet>)
    ensures OpenByKey(c, key).Found? ==> r == OpenByKey(c, key)
    ensures OpenByKey(c, key).Failed? ==> r == Open(c, DEFAULT_SPREADSHEET_NAME)
  {
    match OpenByKey(c, key)
    case Found(s) => Found(s)
    case Failed(_) => Open(c, DEFAULT_SPREADSHEET_NAME)
  }

  /** The worksheet the row goes to: the fixed tab of the opened spreadsheet,
      or the first fault met on the way. */
  function Locate(c: Client, key: string): (r: Lookup<Worksheet>)
  {
    match OpenSpreadsheet(c, key)
    case Found(s) => WorksheetNamed(s, WORKSHEET_NAME)
    case Failed(f) => Failed(f)
  }

  /** Once the key lookup fails, which key it was and which fault it raised
      make no difference: the fallback title decides. */
  lemma LocateIgnoresFailedKey(c: Client, key1: string, key2: string)
    requires OpenByKey(c, key1).Failed? && OpenByKey(c, key2).Failed?
    ensures Locate(c, key1) == Locate(c, key2)
  {
  }

  /** The error text reported for each kind of fault. */
  function FaultMessage(f: Fault): string {
    match f
    case SpreadsheetNotFound => SHEET_NOT_FOUND
    case WorksheetNotFound => WORKSHEET_NOT_FOUND
    case OtherError(e) => SUBMIT_ERROR_PREFIX + e
  }

  /** Different faults are reported with different messages, and none of
      them reads like the validation error. */
  lemma FaultMessageInjective(f: Fault, g: Fault)
    ensures FaultMessage(f) == FaultMessage(g) ==> f == g
    ensures FaultMessage(f) != FULL_NAME_REQUIRED
  {
    MessageStartsWith(f);
    MessageStartsWith(g);
    if FaultMessage(f) == FaultMessage(g) && f.OtherError? && g.OtherError? {
      assert f.message == FaultMessage(f)[|SUBMIT_ERROR_PREFIX|..];
      assert g.message == FaultMessage(g)[|SUBMIT_ERROR_PREFIX|..];
    }
  }

  /** The first letter of each fault's message. */
  function FirstLetter(f: Fault): char {
    match f
    case SpreadsheetNotFound => 'G'
    case WorksheetNotFound => 'W'
    case OtherError(_) => 'A'
  }

  /** Every fault message is non-empty and starts with its fault's letter. */
  lemma MessageStartsWith(f: Fault)
    ensures |FaultMessage(f)| > 0 && FaultMessage(f)[0] == FirstLetter(f)
  {
  }

  // ----------------------------------------------------------------------
  // The handler
  // ----------------------------------------------------------------------

  /** What the handler decides before writing: refuse with a payload, or
      append `row` (built from `details`) to `target`. */
  datatype Step =
    | Refuse(payload: Payload)
    | Append(target: Worksheet, row: seq<string>, details: RsvpDetails)

  /** The decision of `rsvp_jsonp` up to the append. */
  function Plan(c: Client, q: Query, now: string): Step {
    if Strip(q.fullName) == "" then
      Refuse(Rejected(FULL_NAME_REQUIRED))
    else
      match Locate(c, q.spreadsheetId)
      case Failed(f) => Refuse(Rejected(FaultMessage(f)))
      case Found(w) =>
        var d := Normalize(q, now);
        Append(w, BuildRow(d), d)
  }

  /** The three ways a request goes: a blank name is refused with the
      validation message before any lookup; a failed lookup is refused with
      that fault's message; otherwise the located worksheet gets the ten-cell
      row of the normalised record. */
  lemma PlanCases(c: Client, q: Query, now: string)
    ensures AllSpace(q.fullName) ==> Plan(c, q, now) == Refuse(Rejected(FULL_NAME_REQUIRED))
    ensures !AllSpace(q.fullName) && Locate(c, q.spreadsheetId).Failed? ==>
              Plan(c, q, now) == Refuse(Rejected(FaultMessage(Locate(c, q.spreadsheetId).fault)))
    ensures !AllSpace(q.fullName) && Locate(c, q.spreadsheetId).Found? ==>
              var s := Plan(c, q, now);
              && s.Append? && s.target == Locate(c, q.spreadsheetId).value
              && s.details == Normalize(q, now) && IsNormalized(s.details)
              && s.row == BuildRow(s.details) && |s.row| == 10
  {
  }

  /** A blank name is refused with the validation message: a convenience
      instance of the first case of `PlanCases`, used by `RsvpJsonp` so that
      the method does not see the other two cases. */
  lemma BlankNameRefused(c: Client, q: Query, now: string)
    requires AllSpace(q.fullName)
    ensures Plan(c, q, now) == Refuse(Rejected(FULL_NAME_REQUIRED))
  {
  }

  /** The objects the handler may change: the located worksheet, and only
      when the name passed validation. */
  function Targets(c: Client, q: Query, now: string): set<Worksheet> {
    match Plan(c, q, now)
    case Append(w, _, _) => {w}
    case Refuse(_) => {}
  }

  /** The payload after the append: success echoes the record, a fault is
      reported with its message. */
  function Outcome(details: RsvpDetails, fault: Option<Fault>): Payload {
    match fault
    case None => Succeeded(SUBMITTED, details)
    case Some(f) => Rejected(FaultMessage(f))
  }

  /** `rsvp_jsonp`. A blank name is refused before anything is looked up,
      and on every refusal nothing is written (`Targets` is empty). On an append the row
      goes after the existing rows when the service accepts it and the rows
      stay as they were when it raises; the response is the payload of
      `Plan`/`Outcome`, JSONP-wrapped per the callback. */
  method RsvpJsonp(c: Client, q: Query, now: string, json: Payload -> string) returns (r: Response)
    modifies Targets(c, q, now)
    ensures AllSpace(q.fullName) ==>
              Targets(c, q, now) == {} && r == JsonpWrap(q.callback, Rejected(FULL_NAME_REQUIRED), json)
    ensures Plan(c, q, now).Refuse? ==> r == JsonpWrap(q.callback, Plan(c, q, now).payload, json)
    ensures Plan(c, q, now).Append? ==>
              var w := Plan(c, q, now).target;
              && w.fault == old(w.fault)
              && w.rows == old(w.rows) + (if old(w.fault).None? then [Plan(c, q, now).row] else [])
              && r == JsonpWrap(q.callback, Outcome(Plan(c, q, now).details, old(w.fault)), json)
  {
    if AllSpace(q.fullName) {
      BlankNameRefused(c, q, now);
    }
    r := Execute(Plan(c, q, now), q.callback, json);
  }

  /** Carrying out a decided step: answer a refusal as it is, or append the
      row and answer with the outcome of the append. */
  method Execute(step: Step, callback: Option<string>, json: Payload -> string) returns (r: Response)
    modifies if step.Append? then {step.target} else {}
    ensures step.Refuse? ==> r == JsonpWrap(callback, step.payload, json)
    ensures step.Append? ==>
              && step.target.fault == old(step.target.fault)
              && step.target.rows == old(step.target.rows) + (if old(step.target.fault).None? then [step.row] else [])
              && r == JsonpWrap(callback, Outcome(step.details, old(step.target.fault)), json)
  {
    match step
    case Refuse(p) =>
      r := JsonpWrap(callback, p, json);
    case Append(w, row, details) =>
      var fault := w.AppendRow(row);
      r := JsonpWrap(callback, Outcome(details, fault), json);
  }

  /** A guest who answers the ceremony with "1" and the brunch with "0" and
      fills in nothing else gets one row with "Yes" and "No" in those two
      columns and every other optional cell empty; the echoed details say
      true, false and no plus-one name. */
  lemma CeremonyOnlyRow(now: string)
    ensures var q := Query("sheet-id", "Jane Doe", Some(""), Some(""), Some("1"), Some("0"),
                           Some(""), Some(""), Some(""), Some(""), Some(""), None, None);
            && BuildRow(Normalize(q, now)) == ["Jane Doe", "", "", "Yes", "No", "", "", "", "", ""]
            && Normalize(q, now).ceremony == Some(true)
            && Normalize(q, now).brunch == Some(false)
            && Normalize(q, now).plusOneName == None
  {
    assert IsStripped("Jane Doe");
    assert [] + "Jane Doe" + [] == "Jane Doe";
    StripBetweenSpaces([], "Jane Doe", []);
    assert Strip("") == "";
  }
}
