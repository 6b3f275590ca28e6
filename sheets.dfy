/** The spreadsheet service the handler talks to, reduced to what the handler
    observes: opening a spreadsheet by key or by title, selecting a worksheet
    by tab name, and appending one row. The service's exceptions become the
    `Fault` values below. */
module Sheets {
  import opened PyStrings

  /** The exceptions the handler tells apart: the spreadsheet is missing or
      not shared, the tab is missing, or anything else (network, quota,
      malformed reply) carrying the exception's text. */
  datatype Fault = SpreadsheetNotFound | WorksheetNotFound | OtherError(message: string)

  /** The reply to one lookup: the object, or the exception it raised. */
  datatype Lookup<T> = Found(value: T) | Failed(fault: Fault)

  /** One worksheet (tab). `rows` is what the service stores; `fault` is the
      service's condition for writes: `None` when it accepts an append, or the
      exception an append raises. An append is all or nothing. */
  class Worksheet {
    var rows: seq<seq<string>>
    var fault: Option<Fault>

    constructor (rows: seq<seq<string>>, fault: Option<Fault>)
      ensures this.rows == rows && this.fault == fault
    {
      this.rows := rows;
      this.fault := fault;
    }

    /** `append_row`: on success the row goes after every existing row and
        nothing before it changes; on a fault the rows are untouched and the
        fault is reported. */
    method AppendRow(row: seq<string>) returns (outcome: Option<Fault>)
      modifies this`rows
      ensures outcome == fault
      ensures outcome.None? ==> rows == old(rows) + [row]
      ensures outcome.Some? ==> rows == old(rows)
    {
      outcome := fault;
      if outcome.None? {
        rows := rows + [row];
      }
    }
  }

  /** A spreadsheet: its title and the replies its `worksheet(name)` gives.
      A tab name not in `tabs` raises WorksheetNotFound. */
  datatype Spreadsheet = Spreadsheet(title: string, tabs: map<string, Lookup<Worksheet>>)

  /** An authenticated client: the replies of `open_by_key(key)` and
      `open(title)`. A key or title not in the map raises SpreadsheetNotFound. */
  datatype Client = Client(byKey: map<string, Lookup<Spreadsheet>>,
                           byTitle: map<string, Lookup<Spreadsheet>>)

  /** `client.open_by_key(key)`. */
  function OpenByKey(c: Client, key: string): (r: Lookup<Spreadsheet>)
  {
    if key in c.byKey then c.byKey[key] else Failed(SpreadsheetNotFound)
  }

  /** `client.open(title)`. */
  function Open(c: Client, title: string): (r: Lookup<Spreadsheet>)
  {
    if title in c.byTitle then c.byTitle[title] else Failed(SpreadsheetNotFound)
  }

  /** `spreadsheet.worksheet(name)`. */
  function WorksheetNamed(s: Spreadsheet, name: string): (r: Lookup<Worksheet>)
  {
    if name in s.tabs then s.tabs[name] else Failed(WorksheetNotFound)
  }
}
