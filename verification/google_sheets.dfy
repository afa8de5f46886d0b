/**
 * `appendInvoice` of BackEnd/services/googleSheets.js: choose the target
 * spreadsheet, build the six-cell row, and send one append request; every
 * failure comes back as an error carrying the API's message when there is
 * one. The Sheets API is a parameter.
 */
module GoogleSheets {
  import opened Wrappers
  import Text
  import opened InvoiceModel

  /** A spreadsheet cell: a string, or a number as the stored total is. */
  datatype Cell = TextCell(text: string) | NumberCell(number: real)

  /** The body of `spreadsheets.values.append`. */
  datatype AppendRequest = AppendRequest(
    spreadsheetId: string,
    range: string,
    valueInputOption: string,
    insertDataOption: string,
    values: seq<seq<Cell>>)

  /** A rejected API call: the message in `err.response.data.error`, if any, and `err.message`. */
  datatype ApiError = ApiError(responseMessage: Option<string>, message: string)

  /** The API call: its response, or the error it throws. */
  type SheetsApi = AppendRequest -> Result<string, ApiError>

  const MissingIdMessage := "Spreadsheet ID is missing from .env"
  const TargetRange := "Sheet1!A:F"

  /**
   * `(process.env.SPREADSHEET_ID || spreadsheetId || "").trim()`: a
   * non-empty environment value always wins over the caller's ID.
   */
  function TargetId(envId: Option<string>, argId: Option<string>): (id: string)
    ensures Text.Truthy(envId) ==> id == Text.Trim(envId.value)
    ensures !Text.Truthy(envId) && Text.Truthy(argId) ==> id == Text.Trim(argId.value)
    ensures !Text.Truthy(envId) && !Text.Truthy(argId) ==> id == ""
    ensures id == [] || !Text.IsWhitespace(id[0])
  {
    Text.Trim(Text.OrElse(envId, Text.OrElse(argId, "")))
  }

  /** `v || placeholder` for a string field. */
  function TextOr(v: string, placeholder: string): Cell {
    TextCell(if v != "" then v else placeholder)
  }

  /** The row: invoice number, date, total, sender e-mail, vendor, time stamp. */
  function BuildRow(inv: InvoiceRecord, timestamp: string): (row: seq<Cell>)
    ensures |row| == 6
    ensures row[5] == TextCell(timestamp)
  {
    [ TextOr(inv.invoiceNo, "N/A"),
      TextOr(inv.date, "N/A"),
      if inv.total != 0.0 then NumberCell(inv.total) else TextCell("0.00"),
      TextOr(inv.senderEmail, "N/A"),
      TextOr(inv.vendor, "Airtel"),
      TextCell(timestamp) ]
  }

  function RequestFor(targetId: string, inv: InvoiceRecord, timestamp: string): AppendRequest {
    AppendRequest(targetId, TargetRange, "USER_ENTERED", "INSERT_ROWS", [BuildRow(inv, timestamp)])
  }

  /** `err.response?.data?.error?.message || err.message`. */
  function ErrorMessage(e: ApiError): string {
    Text.OrElse(e.responseMessage, e.message)
  }

  /**
   * The service. An empty target fails with the fixed message before any
   * call; otherwise exactly one request, for the chosen spreadsheet and the
   * range A:F of Sheet1, carrying the one row; an API failure is rethrown
   * with its message.
   */
  function AppendInvoice(envId: Option<string>, argId: Option<string>, inv: InvoiceRecord, timestamp: string, api: SheetsApi): (r: Result<string, string>)
    ensures TargetId(envId, argId) == "" ==> r == Failure(MissingIdMessage)
    ensures TargetId(envId, argId) != "" ==>
      var sent := RequestFor(TargetId(envId, argId), inv, timestamp);
      && sent.spreadsheetId == TargetId(envId, argId) && sent.range == TargetRange && |sent.values| == 1
      && (api(sent).Success? ==> r == Success(api(sent).value))
      && (api(sent).Failure? ==> r == Failure(ErrorMessage(api(sent).error)))
  {
    var targetId := TargetId(envId, argId);
    if targetId == "" then
      // The throw is caught by the same handler, which rethrows its message.
      Failure(MissingIdMessage)
    else
      var response := api(RequestFor(targetId, inv, timestamp));
      if response.Success? then Success(response.value) else Failure(ErrorMessage(response.error))
  }

  /**
   * Every placeholder applies exactly to an empty field: a field with a value
   * is copied unchanged, an empty one shows "N/A" ("Airtel" for the vendor,
   * "0.00" for a zero total).
   */
  lemma RowCellsFromFields(inv: InvoiceRecord, timestamp: string)
    ensures var row := BuildRow(inv, timestamp);
      && (inv.invoiceNo != "" <==> row[0] == TextCell(inv.invoiceNo))
      && (inv.date != "" <==> row[1] == TextCell(inv.date))
      && (inv.total != 0.0 <==> row[2] == NumberCell(inv.total))
      && (inv.senderEmail != "" <==> row[3] == TextCell(inv.senderEmail))
      && (inv.vendor != "" <==> row[4] == TextCell(inv.vendor))
    ensures var row := BuildRow(inv, timestamp);
      && (inv.invoiceNo == "" ==> row[0] == TextCell("N/A"))
      && (inv.date == "" ==> row[1] == TextCell("N/A"))
      && (inv.total == 0.0 ==> row[2] == TextCell("0.00"))
      && (inv.senderEmail == "" ==> row[3] == TextCell("N/A"))
      && (inv.vendor == "" ==> row[4] == TextCell("Airtel"))
  {
  }

  /** A zero total, which is what an unparseable amount is stored as, is written as the text "0.00". */
  lemma ZeroTotalWrittenAsText(inv: InvoiceRecord, timestamp: string)
    requires inv.total == 0.0
    ensures BuildRow(inv, timestamp)[2] == TextCell("0.00")
  {
  }

  /**
   * A stored invoice always has a sender e-mail and a vendor (the schema
   * default fills a missing one), so those two placeholders never show.
   */
  lemma StoredInvoiceRow(input: InvoiceInput, now: int, timestamp: string)
    requires CreateInvoice(input, now).Success?
    requires input.vendor.Some? ==> input.vendor.value != ""
    ensures var row := BuildRow(CreateInvoice(input, now).value, timestamp);
      && row[3] == TextCell(CreateInvoice(input, now).value.senderEmail)
      && row[4] == TextCell(CreateInvoice(input, now).value.vendor)
  {
  }
}
