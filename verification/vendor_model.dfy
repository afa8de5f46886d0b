/**
 * The vendor-template schema of BackEnd/models/Vendor.js: an owner and a
 * sender e-mail (both required, the e-mail trimmed and lower-cased), a
 * display name and a column mapping with defaults, a version counter, and a
 * unique index on (owner, sender e-mail).
 */
module VendorModel {
  import opened Wrappers
  import Text
  import opened Schema

  /** The sheet column chosen for each extracted field; None is a key left out. */
  datatype Mapping = Mapping(invoiceNo: Option<string>, date: Option<string>, total: Option<string>, vendor: Option<string>)

  const NoMapping := Mapping(None, None, None, None)

  const DefaultVendorName := "Auto-Detected Vendor"

  /** The schema's nested defaults fill every column that was left out, and only those. */
  function WithDefaults(m: Mapping): (r: Mapping)
    ensures r.invoiceNo == Some(m.invoiceNo.GetOr("Invoice Number"))
    ensures r.date == Some(m.date.GetOr("Date"))
    ensures r.total == Some(m.total.GetOr("Total"))
    ensures r.vendor == Some(m.vendor.GetOr("Vendor"))
  {
    Mapping(
      Some(m.invoiceNo.GetOr("Invoice Number")),
      Some(m.date.GetOr("Date")),
      Some(m.total.GetOr("Total")),
      Some(m.vendor.GetOr("Vendor")))
  }

  datatype VendorTemplate = VendorTemplate(
    userId: Id,
    senderEmail: string,
    vendorName: string,
    mapping: Mapping,
    version: int,
    lastUpdated: int)

  /** The values handed to `Vendor.create`; None is a key left undefined. */
  datatype TemplateInput = TemplateInput(
    userId: Option<Id>,
    senderEmail: Option<string>,
    vendorName: Option<string>,
    mapping: Option<Mapping>)

  predicate WellFormed(t: VendorTemplate) {
    t.senderEmail != "" && Text.IsNormalizedEmail(t.senderEmail)
  }

  /** Two templates with the same (owner, sender e-mail) key. */
  predicate SameKey(a: VendorTemplate, b: VendorTemplate) {
    a.userId == b.userId && a.senderEmail == b.senderEmail
  }

  /** The compound unique index: no two templates share an (owner, sender e-mail) pair. */
  ghost predicate UniqueKeys(ts: seq<VendorTemplate>) {
    forall i, j :: 0 <= i < j < |ts| ==> !SameKey(ts[i], ts[j])
  }

  function SenderErrors(v: Option<string>): seq<FieldError> {
    RequireString(if v.Some? then Some(Text.NormalizeEmail(v.value)) else None, "senderEmail")
  }

  /**
   * A new template document: validated, then filled with the defaults. It
   * is valid exactly when an owner and a non-blank sender e-mail are given.
   */
  function NewTemplate(input: TemplateInput, now: int): (r: Result<VendorTemplate, ValidationError>)
    ensures r.Success? <==> input.userId.Some? && input.senderEmail.Some? && Text.NormalizeEmail(input.senderEmail.value) != ""
    ensures input.userId.None? ==> r.Failure? && RequiredError("userId") in r.error.errors
    ensures r.Success? ==>
      && WellFormed(r.value)
      && r.value.userId == input.userId.value
      && r.value.senderEmail == Text.NormalizeEmail(input.senderEmail.value)
      && r.value.vendorName == input.vendorName.GetOr("Auto-Detected Vendor")
      && r.value.mapping == WithDefaults(input.mapping.GetOr(NoMapping))
      && r.value.version == 1
      && r.value.lastUpdated == now
  {
    var errs := RequirePresent(input.userId, "userId") + SenderErrors(input.senderEmail);
    if errs != [] then
      Failure(ValidationError("Vendor", errs))
    else
      Text.NormalizeEmailIsNormal(input.senderEmail.value);
      Success(VendorTemplate(
        input.userId.value,
        Text.NormalizeEmail(input.senderEmail.value),
        input.vendorName.GetOr(DefaultVendorName),
        WithDefaults(input.mapping.GetOr(NoMapping)),
        1,
        now))
  }

  /** The index of the first template, other than `except`, holding the key of `t`. */
  function KeyClash(ts: seq<VendorTemplate>, t: VendorTemplate, except: int): (r: Option<nat>)
    ensures r.Some? ==> r.value < |ts| && r.value != except && SameKey(ts[r.value], t)
    ensures r.None? ==> forall j :: 0 <= j < |ts| && j != except ==> !SameKey(ts[j], t)
  {
    if ts == [] then None
    else if |ts| - 1 != except && SameKey(ts[|ts| - 1], t) then Some(|ts| - 1)
    else KeyClash(ts[..|ts| - 1], t, except)
  }

  /**
   * `Vendor.findOne({ senderEmail: email })`: the first template whose sender
   * e-mail equals the normalised query. An undefined e-mail is sent as null,
   * which no stored (string) e-mail equals.
   */
  function FindBySender(ts: seq<VendorTemplate>, email: Option<string>): (r: Option<nat>)
    ensures r.Some? ==> email.Some? && r.value < |ts| && ts[r.value].senderEmail == Text.NormalizeEmail(email.value)
    ensures r.Some? ==> forall j :: 0 <= j < r.value ==> ts[j].senderEmail != Text.NormalizeEmail(email.value)
    ensures r.None? && email.Some? ==> forall j :: 0 <= j < |ts| ==> ts[j].senderEmail != Text.NormalizeEmail(email.value)
    decreases |ts|
  {
    if email.None? || ts == [] then None
    else if ts[0].senderEmail == Text.NormalizeEmail(email.value) then Some(0)
    else
      var rest := FindBySender(ts[1..], email);
      if rest.Some? then Some(rest.value + 1) else None
  }

  lemma AppendKeepsKeysUnique(ts: seq<VendorTemplate>, t: VendorTemplate)
    requires UniqueKeys(ts)
    requires forall j :: 0 <= j < |ts| ==> !SameKey(ts[j], t)
    ensures UniqueKeys(ts + [t])
  {
    var ts' := ts + [t];
    forall i, j | 0 <= i < j < |ts'|
      ensures !SameKey(ts'[i], ts'[j])
    {
      if j < |ts| {
        assert ts'[i] == ts[i] && ts'[j] == ts[j];
      } else {
        assert ts'[i] == ts[i] && ts'[j] == t;
      }
    }
  }

  lemma ReplaceKeepsKeysUnique(ts: seq<VendorTemplate>, i: nat, t: VendorTemplate)
    requires UniqueKeys(ts) && i < |ts|
    requires forall j :: 0 <= j < |ts| && j != i ==> !SameKey(ts[j], t)
    ensures UniqueKeys(ts[i := t])
  {
    var ts' := ts[i := t];
    forall a, b | 0 <= a < b < |ts'|
      ensures !SameKey(ts'[a], ts'[b])
    {
      if a != i && b != i {
        assert ts'[a] == ts[a] && ts'[b] == ts[b];
      }
    }
  }

  /** The template collection. */
  class TemplateStore {
    var templates: seq<VendorTemplate>

    ghost predicate Valid()
      reads this
    {
      (forall i :: 0 <= i < |templates| ==> WellFormed(templates[i])) && UniqueKeys(templates)
    }

    constructor ()
      ensures Valid() && templates == []
    {
      templates := [];
    }

    /** `Vendor.create`: validate, check the unique index, then append. */
    method Insert(input: TemplateInput, now: int) returns (r: Result<VendorTemplate, SaveError>)
      requires Valid()
      modifies this
      ensures Valid()
      ensures NewTemplate(input, now).Failure? ==> r == Failure(Invalid(NewTemplate(input, now).error))
      ensures NewTemplate(input, now).Success? && KeyClash(old(templates), NewTemplate(input, now).value, -1).Some? ==>
        r == Failure(DuplicateKey(["userId", "senderEmail"]))
      ensures r.Success? <==> NewTemplate(input, now).Success? && KeyClash(old(templates), NewTemplate(input, now).value, -1).None?
      ensures r.Success? ==> r.value == NewTemplate(input, now).value
      ensures templates == if r.Success? then old(templates) + [r.value] else old(templates)
    {
      var doc := NewTemplate(input, now);
      if doc.Failure? {
        return Failure(Invalid(doc.error));
      }
      var clash := KeyClash(templates, doc.value, -1);
      if clash.Some? {
        return Failure(DuplicateKey(["userId", "senderEmail"]));
      }
      AppendKeepsKeysUnique(templates, doc.value);
      templates := templates + [doc.value];
      r := Success(doc.value);
    }

    /** `doc.save()` of the template at index `i`: validate, check the unique index, then overwrite. */
    method SaveAt(i: nat, doc: VendorTemplate) returns (r: Result<VendorTemplate, SaveError>)
      requires Valid() && i < |templates|
      modifies this
      ensures Valid()
      ensures !WellFormed(doc) ==> r.Failure? && r.error.Invalid?
      ensures WellFormed(doc) && SameKey(doc, old(templates[i])) ==> r == Success(doc)
      ensures templates == if r.Success? then old(templates)[i := doc] else old(templates)
    {
      if !WellFormed(doc) {
        return Failure(Invalid(ValidationError("Vendor", SenderErrors(Some(doc.senderEmail)))));
      }
      var clash := KeyClash(templates, doc, i);
      if clash.Some? {
        assert clash.value != i;
        return Failure(DuplicateKey(["userId", "senderEmail"]));
      }
      ReplaceKeepsKeysUnique(templates, i, doc);
      templates := templates[i := doc];
      r := Success(doc);
    }
  }
}
