# Wedding RSVP intake — Dafny model of the JSONP endpoint

This project models the GET `/wedding/rsvp` handler of the wedding RSVP
microservice (`main.py`). The handler takes a guest's form as query
parameters and checks that the full name is not blank. It opens the target
spreadsheet by key (falling back to the spreadsheet titled "RSVP Responses")
and selects the "Responses" tab, then normalises the form into an RSVP
record. It appends one ten-column row and answers with a success or failure
dictionary. When the caller passes a `callback` name, the answer is wrapped
as a JSONP call.

Files and modules:

- `pystrings.dfy`, module `PyStrings`: Python's `Optional` as `Option`, and
  `str.isspace` / `str.strip()`. `IsSpace` lists the code points Python 3
  counts as whitespace. `Strip` is proved to cut the string between two runs
  of whitespace, and it is characterised by `StripBetweenSpaces`.
- `sheets.dfy`, module `Sheets`: the spreadsheet service as the handler sees
  it. The three exception kinds the handler tells apart become `Fault`, and
  a lookup reply is `Lookup`. `Worksheet` is a class whose `rows` field is
  what the service stores. Its `fault` field is the service's condition for
  writes: `None` means it accepts an append, otherwise it is the exception an
  append raises. An append is all or nothing. The client's `open_by_key` and
  `open` replies are maps. A key or title missing from a map raises
  SpreadsheetNotFound, and a tab missing from a spreadsheet raises
  WorksheetNotFound.
- `rsvp.dfy`, module `Rsvp`: the helpers `flag_to_bool`, `bool_to_yes_no`
  and `jsonp_wrap`; the `RSVPDetails` record; normalisation; the row; the
  key-then-title lookup; the fault messages; and the handler itself. The
  handler is split in two. `Plan` is a pure function for the decision up to
  the append. `Execute` is a method that performs the append on the located
  worksheet. `RsvpJsonp` composes them.

The clock (`datetime.utcnow().isoformat()`) is the parameter `now`. The JSON
serialiser (`json.dumps` of the payload, including pydantic's `model_dump`
of the details) is the function parameter `json`.

Three behaviours of the code are easy to miss:

- A present, non-empty flag other than `"1"` (such as `"yes"` or `" 1"`)
  decodes to an explicit false (main.py:80), although the `flag_to_bool`
  docstring (main.py:72-77) lists only `'1'`, `'0'`, `''` and `None`. See
  `FlagLiterals`.
- The row has exactly ten cells. The timestamp is not written to it
  (main.py:181-182 leave that column commented out).
- If the key lookup fails for any reason, the handler always falls back to
  the default title.

## Model

| member | source | states |
|---|---|---|
| `PyStrings.Strip` | main.py:135 | `str.strip()`. The result has no whitespace at either end and sits in the input between two all-whitespace runs. It is empty exactly when the input is all whitespace. |
| `PyStrings.StripBetweenSpaces` | main.py:155 | Strip is determined by its result: whitespace + s + whitespace strips back to s for every stripped s. |
| `PyStrings.StripOfStripped` | main.py:155 | A string with no whitespace at either end is its own strip. |
| `PyStrings.StripIdempotent` | main.py:155 | Stripping an already stripped name changes nothing. |
| `Rsvp.FlagToBool` | main.py:71-80 | Absent exactly when the raw flag is absent or `""`. True exactly for `"1"`. False for every other non-empty text. |
| `Rsvp.FlagLiterals` | main.py:78-80 | `"1"` gives true. `"0"`, `"yes"` and `" 1"` give false, not absent. `""` and absent give absent. |
| `Rsvp.BoolToYesNo` | main.py:83-88 | The label is `"Yes"` exactly for true, `"No"` exactly for false, and `""` exactly for unspecified. |
| `Rsvp.BoolToYesNoInjective` | main.py:83-88 | Distinct answers get distinct labels, and reading the label back gives the answer. |
| `Rsvp.JsonpWrap` | main.py:91-104 | With a non-empty callback, the body is exactly the callback name, `(`, the serialised payload untouched, and `)`. With an absent or empty callback, the payload is returned as it is. |
| `Rsvp.OptionalText` | main.py:156-162 | An optional text is absent exactly when it is absent or all whitespace. Otherwise it is the stripped input, which is non-empty and has no surrounding whitespace. |
| `Rsvp.Normalize` | main.py:154-167 | The record's name is the stripped input name. A non-empty supplied timestamp is kept verbatim; only an absent or empty one is replaced by the clock value. |
| `Rsvp.NormalizeIsNormalized` | main.py:135-167 | Once the name passes validation, the record has a non-empty stripped name, optional texts that are absent or non-empty and stripped, and a timestamp. |
| `Rsvp.BuildRow` | main.py:170-183 | The row has exactly ten cells. |
| `Rsvp.RowFromQuery` | main.py:154-183 | Cell by cell, in the fixed column order: the stripped name; the stripped optional texts (`""` when absent or blank); and `bool_to_yes_no(flag_to_bool(raw))` for each of the six answers. No timestamp cell. |
| `Rsvp.ReadBuiltRow` | main.py:170-183 | A normalised record can be read back from its row, given its timestamp. The row loses nothing else. |
| `Rsvp.CeremonyOnlyRow` | main.py:154-183 | Name "Jane Doe", ceremony `"1"`, brunch `"0"` and nothing else give the row `["Jane Doe", "", "", "Yes", "No", "", "", "", "", ""]`, and details with ceremony true, brunch false and no plus-one name. |
| `Rsvp.OpenSpreadsheet` | main.py:142-146 | A successful key lookup is used as it is. Any failed key lookup is replaced by opening the default spreadsheet by title. |
| `Rsvp.LocateIgnoresFailedKey` | main.py:142-148 | Once the key lookup fails, the worksheet found, or the fault reported, does not depend on the key or on its fault. |
| `Rsvp.FaultMessageInjective` | main.py:195-213 | Spreadsheet-not-found, worksheet-not-found and other faults get pairwise distinct messages. Two other-errors differ in message exactly when their texts differ. No fault message equals the validation message. |
| `Rsvp.PlanCases` | main.py:135-183 | A blank name is refused with "Full name is required" before any lookup. A failed lookup is refused with that fault's message. Otherwise the located worksheet is to get the ten-cell row of the normalised record. |
| `Rsvp.BlankNameRefused` | main.py:135-138 | An empty or whitespace-only name is refused with "Full name is required". |
| `Rsvp.Execute` | main.py:185-213 | If the append succeeds, exactly one row goes after the existing rows and the answer is a success echoing the record. If the append raises, the rows are unchanged and the answer is a failure carrying the fault's message and no details. |
| `Rsvp.RsvpJsonp` | main.py:110-213 | For a blank name the answer is the wrapped validation error and nothing may be modified. A refusal writes nothing and answers its payload. Otherwise the worksheet gains one row or none, depending on the append, and the answer is the wrapped outcome. |
| `Sheets.Worksheet.AppendRow` | main.py:185 | A successful append adds the row at the end and keeps earlier rows. A failed append changes nothing and reports its fault. |

The functions `Rsvp.Plan`, `Rsvp.Locate`, `Rsvp.FaultMessage` and
`Rsvp.Outcome` only compute. Their properties are stated by the lemmas and
methods above: `PlanCases`, `LocateIgnoresFailedKey` with `OpenSpreadsheet`,
`FaultMessageInjective` and `Execute`.

## Left out

- Authentication (`get_google_sheet_client`, main.py:52-65) is not modelled. It is a credential-file read and a foreign library call, and its HTTP 500 failure happens in the framework before the handler body runs, even for a blank name. The model starts from an already authenticated `Client`.
- The FastAPI application, router, `Query`/`Depends` wiring and response media types (main.py:17-18, 110-129, 217) are not modelled. They are framework plumbing. `Response.Script` stands for the `application/javascript` text response, and `Response.Plain` for the dictionary FastAPI serialises.
- Logging calls, including the read of `spreadsheet.title` for the log line, are not modelled. They have no effect on the result.
- The clock is the parameter `now`. The JSON serialiser and `model_dump` are the function parameter `json`. Their output formats are library behaviour.
- The real gspread network calls are replaced by in-memory replies (maps of lookups) and the `Worksheet` class. Their timing, retries and concurrency with other writers are not modelled.
- Sheets.Worksheet.AppendRow: whether an append fails is read from the worksheet's `fault` field. This stands for the service's condition at call time; the model does not capture how that condition arises.
- Rsvp.BuildRow: its own contract states only the length. The content of each cell is stated by `RowFromQuery` and `ReadBuiltRow`.
- PyStrings.IsSpace: follows Python 3's whitespace table. Characters added or removed by later Unicode versions are not tracked.
