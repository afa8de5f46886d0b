/**
 * The invoice schema of BackEnd/models/Invoice.js: required owner, sender
 * e-mail and file path; defaults for every extracted field; a three-valued
 * status; and the in-memory collection that stands for the database.
 */
module InvoiceModel {
  import opened Wrappers
  import Text
  import opened Schema

  datatype Status = Pending | Processed | Flagged

  function StatusName(s: Status): string {
    match s
    case Pending => "pending"
    case Processed => "processed"
    case Flagged => "flagged"
  }

  /** The enum validator: exactly the three names are accepted, each as its own status. */
  function ParseStatus(name: string): (r: Option<Status>)
    ensures r.Some? <==> name in {"pending", "processed", "flagged"}
    ensures r.Some? ==> StatusName(r.value) == name
  {
    if name == "pending" then Some(Pending)
    else if name == "processed" then Some(Processed)
    else if name == "flagged" then Some(Flagged)
    else None
  }

  /** The values handed to `Invoice.create`; None is a key left undefined. Confidence is in hundredths. */
  datatype InvoiceInput = InvoiceInput(
    userId: Option<Id>,
    senderEmail: Option<string>,
    vendor: Option<string>,
    invoiceNo: Option<string>,
    date: Option<string>,
    total: Option<real>,
    confidence: Option<int>,
    rawText: Option<string>,
    filePath: Option<string>,
    status: Option<string>,
    needsMapping: Option<bool>)

  /** A stored invoice. */
  datatype InvoiceRecord = InvoiceRecord(
    userId: Id,
    senderEmail: string,
    vendor: string,
    invoiceNo: string,
    date: string,
    total: real,
    confidence: int,
    rawText: Option<string>,
    filePath: string,
    status: Status,
    needsMapping: bool,
    createdAt: int)

  const DefaultVendor := "Unknown Vendor"
  const DefaultInvoiceNo := "N/A"
  const DefaultDate := "N/A"

  /** The invariant every stored invoice satisfies. */
  predicate WellFormed(r: InvoiceRecord) {
    r.senderEmail != "" && Text.IsNormalizedEmail(r.senderEmail) && r.filePath != ""
  }

  /** The sender e-mail after the schema's `lowercase` and `trim` setters. */
  function SetEmail(v: Option<string>): (r: Option<string>)
    ensures r.Some? <==> v.Some?
    ensures r.Some? ==> r.value == Text.NormalizeEmail(v.value) && Text.IsNormalizedEmail(r.value)
  {
    if v.Some? then
      Text.NormalizeEmailIsNormal(v.value);
      Some(Text.NormalizeEmail(v.value))
    else None
  }

  function StatusErrors(v: Option<string>): seq<FieldError> {
    if v.None? || ParseStatus(v.value).Some? then []
    else [FieldError("status", "`" + v.value + "` is not a valid enum value for path `status`.")]
  }

  function InvoiceErrors(input: InvoiceInput): (errs: seq<FieldError>)
    ensures errs == [] <==>
      && input.userId.Some?
      && input.senderEmail.Some? && Text.NormalizeEmail(input.senderEmail.value) != ""
      && input.filePath.Some? && input.filePath.value != ""
      && (input.status.Some? ==> input.status.value in {"pending", "processed", "flagged"})
  {
    RequirePresent(input.userId, "userId")
      + RequireString(SetEmail(input.senderEmail), "senderEmail")
      + RequireString(input.filePath, "filePath")
      + StatusErrors(input.status)
  }

  /**
   * `Invoice.create(input)`: apply the setters and defaults, then validate.
   * It succeeds exactly when the owner, a non-blank sender e-mail and a
   * non-empty file path are given and the status, if given, is one of the
   * three names; the stored record then carries the defaults for every
   * field left undefined.
   */
  function CreateInvoice(input: InvoiceInput, now: int): (r: Result<InvoiceRecord, ValidationError>)
    ensures r.Success? <==>
      && input.userId.Some?
      && input.senderEmail.Some? && Text.NormalizeEmail(input.senderEmail.value) != ""
      && input.filePath.Some? && input.filePath.value != ""
      && (input.status.Some? ==> input.status.value in {"pending", "processed", "flagged"})
    ensures r.Success? ==> WellFormed(r.value)
    ensures r.Success? ==> r.value.senderEmail == Text.NormalizeEmail(input.senderEmail.value)
    ensures r.Success? ==>
      && r.value.vendor == input.vendor.GetOr("Unknown Vendor")
      && r.value.invoiceNo == input.invoiceNo.GetOr("N/A")
      && r.value.date == input.date.GetOr("N/A")
      && r.value.total == input.total.GetOr(0.0)
      && r.value.confidence == input.confidence.GetOr(0)
      && r.value.status == (if input.status.Some? then ParseStatus(input.status.value).value else Pending)
      && r.value.needsMapping == input.needsMapping.GetOr(true)
  {
    var errs := InvoiceErrors(input);
    if errs != [] then
      Failure(ValidationError("Invoice", errs))
    else
      var email := SetEmail(input.senderEmail).value;
      Success(InvoiceRecord(
        input.userId.value,
        email,
        input.vendor.GetOr(DefaultVendor),
        input.invoiceNo.GetOr(DefaultInvoiceNo),
        input.date.GetOr(DefaultDate),
        input.total.GetOr(0.0),
        input.confidence.GetOr(0),
        input.rawText,
        input.filePath.value,
        if input.status.Some? then ParseStatus(input.status.value).value else Pending,
        input.needsMapping.GetOr(true),
        now))
  }

  /** The invoice collection. */
  class InvoiceStore {
    var invoices: seq<InvoiceRecord>

    ghost predicate Valid()
      reads this
    {
      forall i :: 0 <= i < |invoices| ==> WellFormed(invoices[i])
    }

    constructor ()
      ensures Valid() && invoices == []
    {
      invoices := [];
    }

    /** Insert one invoice; a document that fails validation leaves the collection as it was. */
    method Create(input: InvoiceInput, now: int) returns (r: Result<InvoiceRecord, ValidationError>)
      requires Valid()
      modifies this
      ensures Valid()
      ensures r == CreateInvoice(input, now)
      ensures invoices == if r.Success? then old(invoices) + [r.value] else old(invoices)
    {
      r := CreateInvoice(input, now);
      if r.Success? {
        ghost var before := invoices;
        invoices := invoices + [r.value];
        forall i | 0 <= i < |invoices|
          ensures WellFormed(invoices[i])
        {
          if i < |before| {
            assert invoices[i] == before[i];
          }
        }
      }
    }
  }
}
