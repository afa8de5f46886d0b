/**
 * The upload route of BackEnd/routes/upload.js: normalise the request,
 * read and extract the PDF, decide vendor, confidence and whether the
 * invoice needs a manual mapping, store the invoice, then mail the sender
 * and, for an invoice that needs no mapping, append it to a spreadsheet.
 * Reading the PDF, `parseFloat`, the mail transport and the Sheets API are
 * parameters; the collections are the in-memory stores.
 */
module Upload {
  import opened Wrappers
  import Text
  import opened Schema
  import opened Extractor
  import opened InvoiceModel
  import opened VendorModel
  import opened UserModel
  import opened AuthMiddleware
  import opened GoogleSheets

  /** The file multer stored for the request. */
  datatype UploadedFile = UploadedFile(path: string)

  /**
   * The route's answers: 400 `{ error }` without a file, 500 `{ success:
   * false, error }` for every thrown error, `{ success: true, invoice }` otherwise.
   */
  datatype UploadReply = NoFile | ServerError(error: string) | Uploaded(invoice: InvoiceRecord)

  function StatusOf(r: UploadReply): int {
    match r
    case NoFile => 400
    case ServerError(_) => 500
    case Uploaded(_) => 200
  }

  /** `pdfService.readPDF`: the text, or the message of the error it throws. */
  type PdfReader = string -> Result<string, string>

  /** `parseFloat`: the number, or None for NaN. */
  type FloatParser = string -> Option<real>

  const NoFileMessage := "No PDF uploaded"
  const MissingUserIdMessage := "User ID not found in token"
  const UnknownUserMessage := "User profile not found"
  const UnknownSender := "unknown@vendor.com"

  /** The confidence, in hundredths, from which an extraction is trusted without a template. */
  const Threshold := 70
  /** The confidence of an invoice that matched a saved template. */
  const TemplateConfidence := 100

  /** `fields.vendor`: the extractor never sets it. */
  const ExtractedVendor: Option<string> := None

  /** `req.file.path.replace(/\\/g, "/")`: every backslash becomes a slash and nothing else changes. */
  function SafeFilePath(path: string): (r: string)
    ensures |r| == |path| && '\\' !in r
    ensures forall i :: 0 <= i < |path| && path[i] != '\\' ==> r[i] == path[i]
  {
    Text.ReplaceChar(path, '\\', '/')
  }

  /** The body's sender address, or the unknown-sender address when it is absent or empty, trimmed and lower-cased. */
  function SenderEmail(bodyEmail: Option<string>): (r: string)
    ensures Text.Truthy(bodyEmail) ==> r == Text.NormalizeEmail(bodyEmail.value)
    ensures !Text.Truthy(bodyEmail) ==> r == UnknownSender
    ensures Text.IsNormalizedEmail(r)
  {
    UnknownSenderIsNormal();
    Text.NormalizeEmailIsNormal(Text.OrElse(bodyEmail, UnknownSender));
    Text.NormalizeEmail(Text.OrElse(bodyEmail, UnknownSender))
  }

  /** The fallback sender is already trimmed and lower-case. */
  lemma UnknownSenderIsNormal()
    ensures Text.IsNormalizedEmail(UnknownSender)
    ensures Text.NormalizeEmail(UnknownSender) == UnknownSender
  {
    assert forall i :: 0 <= i < |UnknownSender| ==> !('A' <= UnknownSender[i] <= 'Z');
    assert !Text.IsWhitespace(UnknownSender[0]) && !Text.IsWhitespace(UnknownSender[|UnknownSender| - 1]);
    Text.NormalizedIsFixpoint(UnknownSender);
  }

  /** A template with the given owner, sender e-mail and name. */
  predicate TemplateMatches(t: VendorTemplate, userId: Id, email: string, vendorName: string) {
    t.userId == userId && t.senderEmail == Text.NormalizeEmail(email) && t.vendorName == vendorName
  }

  /**
   * `Vendor.findOne({ userId, senderEmail, vendorName })`: the first
   * template matching all three. An undefined vendor name is sent as null,
   * which no stored (string) name equals.
   */
  function FindTemplate(ts: seq<VendorTemplate>, userId: Id, email: string, vendorName: Option<string>): (r: Option<VendorTemplate>)
    ensures vendorName.None? ==> r.None?
    ensures r.Some? ==> && vendorName.Some? && r.value in ts && TemplateMatches(r.value, userId, email, vendorName.value)
    ensures r.None? && vendorName.Some? ==> forall j :: 0 <= j < |ts| ==> !TemplateMatches(ts[j], userId, email, vendorName.value)
    decreases |ts|
  {
    if vendorName.None? || ts == [] then None
    else if TemplateMatches(ts[0], userId, email, vendorName.value) then Some(ts[0])
    else FindTemplate(ts[1..], userId, email, vendorName)
  }

  /** The vendor name, confidence and mapping flag the route settles on. */
  datatype Resolution = Resolution(vendor: Option<string>, confidence: int, needsMapping: bool)

  /**
   * The decision: a saved template fixes the vendor with full confidence;
   * otherwise the extractor's vendor and confidence are kept, and the
   * invoice needs a mapping exactly when the confidence is below 70.
   */
  function Resolve(template: Option<VendorTemplate>, fields: ExtractedFields): (r: Resolution)
    ensures template.Some? ==> r == Resolution(Some(template.value.vendorName), TemplateConfidence, false)
    ensures template.None? ==> r.vendor == ExtractedVendor && r.confidence == fields.confidence
    ensures template.None? ==> (r.needsMapping <==> fields.confidence < Threshold)
  {
    if template.Some? then Resolution(Some(template.value.vendorName), TemplateConfidence, false)
    else if fields.confidence >= Threshold then Resolution(ExtractedVendor, fields.confidence, false)
    else Resolution(ExtractedVendor, fields.confidence, true)
  }

  /** The `let` variables and the if/else-if chain that settle them. */
  method ResolveVendor(template: Option<VendorTemplate>, fields: ExtractedFields) returns (vendor: Option<string>, confidence: int, needsMapping: bool)
    ensures Resolution(vendor, confidence, needsMapping) == Resolve(template, fields)
  {
    vendor := ExtractedVendor;
    confidence := fields.confidence;
    needsMapping := true;
    if template.Some? {
      vendor := Some(template.value.vendorName);
      confidence := TemplateConfidence;
      needsMapping := false;
    } else if fields.confidence >= Threshold {
      needsMapping := false;
    } else {
      needsMapping := true;
    }
  }

  predicate IsAmountChar(c: char) {
    '0' <= c <= '9' || c == '.' || c == '-'
  }

  /** `total.replace(/[^\d.-]/g, "")`: the digits, points and minus signs of the total, in order. */
  function AmountText(total: string): (r: string)
    ensures forall i :: 0 <= i < |r| ==> IsAmountChar(r[i])
    ensures forall c :: IsAmountChar(c) ==> multiset(r)[c] == multiset(total)[c]
  {
    Text.KeepCounts(total, IsAmountChar);
    Text.Keep(total, IsAmountChar)
  }

  /** Cleaning keeps the surviving characters in their order: it works piece by piece. */
  lemma AmountTextInOrder(a: string, b: string)
    ensures AmountText(a + b) == AmountText(a) + AmountText(b)
  {
    Text.KeepConcat(a, b, IsAmountChar);
  }

  /** Cleaning a total that is already clean changes nothing. */
  lemma {:induction false} AmountTextKeepsCleanTotal(total: string)
    requires forall i :: 0 <= i < |total| ==> IsAmountChar(total[i])
    ensures AmountText(total) == total
    decreases |total|
  {
    if total != [] {
      var rest := total[1..];
      assert forall i :: 0 <= i < |rest| ==> rest[i] == total[i + 1];
      AmountTextKeepsCleanTotal(rest);
      assert IsAmountChar(total[0]);
      assert total == [total[0]] + rest;
    }
  }

  /** `parseFloat(...) || 0`: NaN and zero both become 0. */
  function CleanTotal(parse: FloatParser, total: string): (r: real)
    ensures parse(AmountText(total)).None? ==> r == 0.0
    ensures parse(AmountText(total)).Some? ==> r == parse(AmountText(total)).value
  {
    var parsed := parse(AmountText(total));
    if parsed.Some? && parsed.value != 0.0 then parsed.value else 0.0
  }

  /** The document handed to `Invoice.create`. */
  function UploadInput(userId: Id, senderEmail: string, filePath: string, text: string, fields: ExtractedFields, res: Resolution, total: real): (r: InvoiceInput)
    ensures r.status == Some(if res.needsMapping then "pending" else "processed")
    ensures r.invoiceNo == Some(if fields.invoiceNo != "" then fields.invoiceNo else "N/A")
    ensures r.date == Some(if fields.date != "" then fields.date else "N/A")
  {
    InvoiceInput(
      Some(userId),
      Some(senderEmail),
      res.vendor,
      Some(Text.OrElse(Some(fields.invoiceNo), "N/A")),
      Some(Text.OrElse(Some(fields.date), "N/A")),
      Some(total),
      Some(res.confidence),
      Some(text),
      Some(filePath),
      Some(if res.needsMapping then "pending" else "processed"),
      Some(res.needsMapping))
  }

  /** `currentUser.spreadsheetId || process.env.SPREADSHEET_ID`. */
  function SheetFor(u: User, envSheetId: Option<string>): (r: Option<string>)
    ensures u.spreadsheetId != "" ==> r == Some(u.spreadsheetId)
    ensures u.spreadsheetId == "" ==> r == envSheetId
  {
    if u.spreadsheetId != "" then Some(u.spreadsheetId) else envSheetId
  }

  /** `Invoice.create` as the route calls it, for the text read from the PDF (the template lookup never succeeds). */
  function UploadCreate(userId: Id, senderEmail: string, filePath: string, text: string, m: Matcher, parse: FloatParser, now: int)
    : Result<InvoiceRecord, ValidationError>
  {
    var fields := Extract(m, text);
    CreateInvoice(UploadInput(userId, senderEmail, filePath, text, fields, Resolve(None, fields), CleanTotal(parse, fields.total)), now)
  }

  /**
   * The route's create succeeds exactly when the sender e-mail and the file
   * path are non-empty: the owner is always given and the status is always
   * one of the enum's names.
   */
  lemma UploadCreateSucceeds(userId: Id, senderEmail: string, filePath: string, text: string, m: Matcher, parse: FloatParser, now: int)
    requires Text.IsNormalizedEmail(senderEmail)
    ensures UploadCreate(userId, senderEmail, filePath, text, m, parse, now).Success? <==> senderEmail != "" && filePath != ""
  {
    Text.NormalizedIsFixpoint(senderEmail);
  }

  /**
   * An uploaded invoice as stored: the request's owner, sender and path, the
   * schema's vendor default, the extracted fields with "N/A" for an empty
   * one, the cleaned total, and the mapping flag and status from the threshold.
   */
  predicate StoredFromUpload(inv: InvoiceRecord, userId: Id, senderEmail: string, filePath: string, text: string, m: Matcher, parse: FloatParser, now: int) {
    var fields := Extract(m, text);
    && inv.userId == userId
    && inv.senderEmail == senderEmail
    && inv.filePath == filePath
    && inv.vendor == DefaultVendor
    && inv.invoiceNo == (if fields.invoiceNo != "" then fields.invoiceNo else "N/A")
    && inv.date == (if fields.date != "" then fields.date else "N/A")
    && inv.total == CleanTotal(parse, fields.total)
    && inv.confidence == fields.confidence
    && (inv.needsMapping <==> fields.confidence < Threshold)
    && inv.status == (if inv.needsMapping then Pending else Processed)
    && inv.rawText == Some(text)
    && inv.createdAt == now
  }

  /** What a successful create stores. */
  lemma UploadCreateFields(userId: Id, senderEmail: string, filePath: string, text: string, m: Matcher, parse: FloatParser, now: int)
    requires Text.IsNormalizedEmail(senderEmail)
    requires UploadCreate(userId, senderEmail, filePath, text, m, parse, now).Success?
    ensures StoredFromUpload(UploadCreate(userId, senderEmail, filePath, text, m, parse, now).value, userId, senderEmail, filePath, text, m, parse, now)
  {
    Text.NormalizedIsFixpoint(senderEmail);
  }

  /**
   * The route after the owner has been found and the PDF read: extract,
   * look up the template, resolve, clean the total and store the invoice;
   * then the mail goes out (`mailedTo`) and, for an invoice that needs no
   * mapping, the Sheets append is attempted (`sync`). Neither failure
   * changes the reply.
   */
  method StoreInvoice(
    invoices: InvoiceStore, templates: seq<VendorTemplate>,
    userId: Id, owner: User, senderEmail: string, filePath: string, text: string,
    m: Matcher, parse: FloatParser, envSheetId: Option<string>, api: SheetsApi, now: int, timestamp: string)
    returns (reply: UploadReply, mailedTo: Option<string>, sync: Option<Result<string, string>>)
    requires invoices.Valid()
    modifies invoices
    ensures invoices.Valid()
    ensures
      var created := UploadCreate(userId, senderEmail, filePath, text, m, parse, now);
      && (created.Failure? ==> reply == ServerError(ValidationMessage(created.error)) && invoices.invoices == old(invoices.invoices))
      && (created.Success? ==> reply == Uploaded(created.value) && invoices.invoices == old(invoices.invoices) + [created.value])
    ensures Text.IsNormalizedEmail(senderEmail) ==> (reply.Uploaded? <==> senderEmail != "" && filePath != "")
    ensures Text.IsNormalizedEmail(senderEmail) && reply.Uploaded? ==>
      StoredFromUpload(reply.invoice, userId, senderEmail, filePath, text, m, parse, now)
    ensures mailedTo.Some? <==> reply.Uploaded?
    ensures mailedTo.Some? ==> mailedTo.value == senderEmail
    ensures sync.Some? <==> reply.Uploaded? && !reply.invoice.needsMapping
    ensures sync.Some? ==> sync.value == AppendInvoice(envSheetId, SheetFor(owner, envSheetId), reply.invoice, timestamp, api)
  {
    if Text.IsNormalizedEmail(senderEmail) {
      UploadCreateSucceeds(userId, senderEmail, filePath, text, m, parse, now);
      if UploadCreate(userId, senderEmail, filePath, text, m, parse, now).Success? {
        UploadCreateFields(userId, senderEmail, filePath, text, m, parse, now);
      }
    }
    var fields := ExtractFields(m, text);
    var savedVendor := FindTemplate(templates, userId, senderEmail, ExtractedVendor);
    var vendor, confidence, needsMapping := ResolveVendor(savedVendor, fields);
    var cleanTotal := CleanTotal(parse, fields.total);
    var res := Resolution(vendor, confidence, needsMapping);
    var created := invoices.Create(UploadInput(userId, senderEmail, filePath, text, fields, res, cleanTotal), now);
    if created.Failure? {
      return ServerError(ValidationMessage(created.error)), None, None;
    }
    var invoice := created.value;
    mailedTo := Some(senderEmail);
    sync := None;
    if !needsMapping {
      sync := Some(AppendInvoice(envSheetId, SheetFor(owner, envSheetId), invoice, timestamp, api));
    }
    reply := Uploaded(invoice);
  }

  /**
   * POST /upload. No file answers 400 before anything else; a token without
   * an owner, an unknown owner and an unreadable PDF answer 500 with their
   * messages, none of them storing anything; otherwise StoreInvoice.
   */
  method HandleUpload(
    invoices: InvoiceStore, users: seq<User>, templates: seq<VendorTemplate>,
    file: Option<UploadedFile>, user: Option<Payload>, bodyEmail: Option<string>,
    readPdf: PdfReader, m: Matcher, parse: FloatParser, envSheetId: Option<string>, api: SheetsApi, now: int, timestamp: string)
    returns (reply: UploadReply, mailedTo: Option<string>, sync: Option<Result<string, string>>)
    requires invoices.Valid()
    modifies invoices
    ensures invoices.Valid()
    ensures file.None? ==> reply == NoFile
    ensures file.Some? && UserIdOf(user).None? ==> reply == ServerError(MissingUserIdMessage)
    ensures file.Some? && UserIdOf(user).Some? && UserIdOf(user).value >= |users| ==> reply == ServerError(UnknownUserMessage)
    ensures file.Some? && UserIdOf(user).Some? && UserIdOf(user).value < |users| && readPdf(file.value.path).Failure? ==>
      reply == ServerError(readPdf(file.value.path).error)
    ensures file.Some? && UserIdOf(user).Some? && UserIdOf(user).value < |users| && readPdf(file.value.path).Success? ==>
      var created := UploadCreate(UserIdOf(user).value, SenderEmail(bodyEmail), SafeFilePath(file.value.path), readPdf(file.value.path).value, m, parse, now);
      && (created.Success? <==> SenderEmail(bodyEmail) != "" && file.value.path != "")
      && (created.Success? ==> reply == Uploaded(created.value) && invoices.invoices == old(invoices.invoices) + [created.value])
      && (created.Failure? ==> reply == ServerError(ValidationMessage(created.error)))
    ensures reply.Uploaded? ==>
      && file.Some? && UserIdOf(user).Some? && UserIdOf(user).value < |users| && readPdf(file.value.path).Success?
      && StoredFromUpload(reply.invoice, UserIdOf(user).value, SenderEmail(bodyEmail), SafeFilePath(file.value.path),
           readPdf(file.value.path).value, m, parse, now)
    ensures !reply.Uploaded? ==> invoices.invoices == old(invoices.invoices)
    ensures mailedTo.Some? <==> reply.Uploaded?
    ensures mailedTo.Some? ==> mailedTo.value == SenderEmail(bodyEmail)
    ensures sync.Some? <==> reply.Uploaded? && !reply.invoice.needsMapping
    ensures sync.Some? ==>
      && UserIdOf(user).Some? && UserIdOf(user).value < |users|
      && sync.value == AppendInvoice(envSheetId, SheetFor(users[UserIdOf(user).value], envSheetId), reply.invoice, timestamp, api)
  {
    if file.None? {
      return NoFile, None, None;
    }
    var targetUserId := UserIdOf(user);
    if targetUserId.None? {
      return ServerError(MissingUserIdMessage), None, None;
    }
    var userId := targetUserId.value;
    var safeFilePath := SafeFilePath(file.value.path);
    var senderEmail := SenderEmail(bodyEmail);
    if userId >= |users| {
      return ServerError(UnknownUserMessage), None, None;
    }
    var currentUser := users[userId];
    var read := readPdf(file.value.path);
    if read.Failure? {
      return ServerError(read.error), None, None;
    }
    reply, mailedTo, sync := StoreInvoice(invoices, templates, userId, currentUser, senderEmail, safeFilePath, read.value,
      m, parse, envSheetId, api, now, timestamp);
  }

  /** The template branch is dead: the lookup always carries an undefined vendor name. */
  lemma TemplateNeverFound(ts: seq<VendorTemplate>, userId: Id, email: string, fields: ExtractedFields)
    ensures FindTemplate(ts, userId, email, ExtractedVendor).None?
    ensures Resolve(None, fields).vendor.None?
  {
  }

  /**
   * Without a template the invoice needs no mapping exactly when both the
   * invoice number and the total were found: only 70 and 100 reach the
   * threshold.
   */
  lemma NoMappingIffNumberAndTotalFound(m: Matcher, text: string)
    ensures !Resolve(None, Extract(m, text)).needsMapping <==>
      InvoiceCapture(m, text).Some? && TotalCapture(m, text).Some?
  {
    ConfidenceReflectsMatches(m, text);
  }

  /**
   * With a non-blank sender and a non-empty path the upload's document is
   * accepted, and its stored status is "pending" exactly when it needs a mapping.
   */
  lemma PendingIffNeedsMapping(userId: Id, senderEmail: string, filePath: string, text: string, fields: ExtractedFields, res: Resolution, total: real, now: int)
    requires Text.NormalizeEmail(senderEmail) != "" && filePath != ""
    ensures CreateInvoice(UploadInput(userId, senderEmail, filePath, text, fields, res, total), now).Success?
    ensures var inv := CreateInvoice(UploadInput(userId, senderEmail, filePath, text, fields, res, total), now).value;
      && (inv.status == Pending <==> inv.needsMapping)
      && (inv.status == Processed <==> !inv.needsMapping)
      && inv.needsMapping == res.needsMapping
  {
    var input := UploadInput(userId, senderEmail, filePath, text, fields, res, total);
    assert input.userId.Some? && input.senderEmail == Some(senderEmail) && input.filePath == Some(filePath);
    assert input.needsMapping == Some(res.needsMapping);
  }

  /**
   * The row an uploaded invoice sends to the spreadsheet: since the stored
   * vendor is always the schema default, the vendor cell is "Unknown
   * Vendor", never the "Airtel" placeholder.
   */
  lemma UploadedRowVendorCell(inv: InvoiceRecord, timestamp: string)
    requires inv.vendor == DefaultVendor
    ensures BuildRow(inv, timestamp)[4] == TextCell("Unknown Vendor")
  {
  }
}
