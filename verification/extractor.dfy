/**
 * The field extractor of BackEnd/services/extractor.js. Each of the three
 * fields (invoice number, total, date) has an ordered list of regular
 * expressions; the first one whose capture is accepted fills the field and
 * adds the field's fixed weight to the confidence. Confidence is kept in
 * integer hundredths: 35 + 35 + 30.
 */
module Extractor {
  import opened Wrappers
  import Text

  /** The six regular expressions, named by what they look for. */
  datatype Pattern =
    | InvoiceLabel   // a label such as "Invoice No" or "Bill #", then an alphanumeric id
    | AirtelBlackId  // "Airtel Black ID", a line break, then digits
    | TotalLabel     // a label such as "Total" or "Amount Due", an optional currency, then an amount
    | RupeeAmount    // the rupee sign followed by an amount
    | DateLabel      // a label such as "Date" or "Billing", then a day/month/year
    | DateWords      // a day, a month name and a four-digit year

  /**
   * The regular-expression engine, left abstract: the first capture group of
   * the first match of a pattern in the text, or None when the pattern does
   * not match or its group captured nothing.
   */
  type Matcher = (Pattern, string) -> Option<string>

  const InvoicePatterns: seq<Pattern> := [InvoiceLabel, AirtelBlackId]
  const TotalPatterns: seq<Pattern> := [TotalLabel, RupeeAmount]
  const DatePatterns: seq<Pattern> := [DateLabel, DateWords]

  /** Confidence weights, in hundredths. */
  const InvoiceWeight: nat := 35
  const TotalWeight: nat := 35
  const DateWeight: nat := 30

  /** An invoice-number capture must be longer than three characters. */
  const InvoiceMinLength: nat := 4
  /** Any other capture must be non-empty (truthy). */
  const CaptureMinLength: nat := 1

  /** The `fields` object the extractor returns; it has no vendor key. */
  datatype ExtractedFields = ExtractedFields(invoiceNo: string, total: string, date: string, confidence: nat)

  const Defaults := ExtractedFields("N/A", "0.00", "N/A", 0)

  predicate Accepted(capture: Option<string>, minLength: nat) {
    capture.Some? && |capture.value| >= minLength
  }

  /** The capture of the first pattern, in list order, whose capture is accepted. */
  function FirstAccepted(m: Matcher, patterns: seq<Pattern>, text: string, minLength: nat): (r: Option<string>)
    ensures r.Some? ==> |r.value| >= minLength
  {
    if patterns == [] then None
    else if Accepted(m(patterns[0], text), minLength) then m(patterns[0], text)
    else FirstAccepted(m, patterns[1..], text, minLength)
  }

  /** The search stops at the first accepted capture: every earlier pattern was rejected. */
  lemma {:induction false} FirstAcceptedIsEarliest(m: Matcher, patterns: seq<Pattern>, text: string, minLength: nat, i: nat)
    requires i < |patterns| && Accepted(m(patterns[i], text), minLength)
    requires forall j :: 0 <= j < i ==> !Accepted(m(patterns[j], text), minLength)
    ensures FirstAccepted(m, patterns, text, minLength) == m(patterns[i], text)
    decreases i
  {
    if i > 0 {
      FirstAcceptedIsEarliest(m, patterns[1..], text, minLength, i - 1);
    }
  }

  /** Nothing is found exactly when every pattern's capture is rejected. */
  lemma {:induction false} FirstAcceptedNone(m: Matcher, patterns: seq<Pattern>, text: string, minLength: nat)
    ensures FirstAccepted(m, patterns, text, minLength).None?
        <==> forall j :: 0 <= j < |patterns| ==> !Accepted(m(patterns[j], text), minLength)
    decreases |patterns|
  {
    if patterns != [] {
      FirstAcceptedNone(m, patterns[1..], text, minLength);
      if !Accepted(m(patterns[0], text), minLength) {
        forall j | 0 < j < |patterns|
          ensures Accepted(m(patterns[j], text), minLength) == Accepted(m(patterns[1..][j - 1], text), minLength)
        {
        }
      }
    }
  }

  /** One of the three pattern loops: try the patterns in order, stop at the first accepted capture. */
  method FindFirst(m: Matcher, patterns: seq<Pattern>, text: string, minLength: nat) returns (capture: Option<string>)
    ensures capture == FirstAccepted(m, patterns, text, minLength)
  {
    for i := 0 to |patterns|
      invariant forall j :: 0 <= j < i ==> !Accepted(m(patterns[j], text), minLength)
    {
      var found := m(patterns[i], text);
      if Accepted(found, minLength) {
        FirstAcceptedIsEarliest(m, patterns, text, minLength, i);
        return found;
      }
    }
    FirstAcceptedNone(m, patterns, text, minLength);
    capture := None;
  }

  function InvoiceCapture(m: Matcher, text: string): Option<string> {
    FirstAccepted(m, InvoicePatterns, text, InvoiceMinLength)
  }

  function TotalCapture(m: Matcher, text: string): Option<string> {
    FirstAccepted(m, TotalPatterns, text, CaptureMinLength)
  }

  function DateCapture(m: Matcher, text: string): Option<string> {
    FirstAccepted(m, DatePatterns, text, CaptureMinLength)
  }

  /** The weight a field contributes: its full weight when it was found, nothing otherwise. */
  function WeightIf(found: Option<string>, weight: nat): nat {
    if found.Some? then weight else 0
  }

  /** The characters `replace(/,/g, "")` keeps. */
  predicate NotComma(c: char) {
    c != ','
  }

  /** What `extractFields` returns for a text, as a value. */
  function Extract(m: Matcher, text: string): ExtractedFields {
    var invoice := InvoiceCapture(m, text);
    var total := TotalCapture(m, text);
    var date := DateCapture(m, text);
    ExtractedFields(
      if invoice.Some? then Text.Trim(invoice.value) else Defaults.invoiceNo,
      if total.Some? then Text.Keep(total.value, NotComma) else Defaults.total,
      if date.Some? then Text.Trim(date.value) else Defaults.date,
      WeightIf(invoice, InvoiceWeight) + WeightIf(total, TotalWeight) + WeightIf(date, DateWeight))
  }

  /** `extractFields`: start from the defaults, then run the three loops in turn. */
  method ExtractFields(m: Matcher, text: string) returns (fields: ExtractedFields)
    ensures fields == Extract(m, text)
  {
    ghost var e := Extract(m, text);
    fields := Defaults;

    var invoice := FindFirst(m, InvoicePatterns, text, InvoiceMinLength);
    if invoice.Some? {
      fields := fields.(invoiceNo := Text.Trim(invoice.value), confidence := fields.confidence + InvoiceWeight);
    }
    assert fields.invoiceNo == e.invoiceNo && fields.confidence == WeightIf(invoice, InvoiceWeight);

    var total := FindFirst(m, TotalPatterns, text, CaptureMinLength);
    if total.Some? {
      fields := fields.(total := Text.Keep(total.value, NotComma), confidence := fields.confidence + TotalWeight);
    }
    assert fields.total == e.total && fields.confidence == WeightIf(invoice, InvoiceWeight) + WeightIf(total, TotalWeight);

    var date := FindFirst(m, DatePatterns, text, CaptureMinLength);
    if date.Some? {
      fields := fields.(date := Text.Trim(date.value), confidence := fields.confidence + DateWeight);
    }
    assert fields.date == e.date && fields.confidence == e.confidence;
  }

  /** With no accepted capture for any field, the result is exactly the defaults. */
  lemma NoCaptureGivesDefaults(m: Matcher, text: string)
    requires forall p :: p in InvoicePatterns ==> !Accepted(m(p, text), InvoiceMinLength)
    requires forall p :: p in TotalPatterns + DatePatterns ==> !Accepted(m(p, text), CaptureMinLength)
    ensures Extract(m, text) == ExtractedFields("N/A", "0.00", "N/A", 0)
  {
    FirstAcceptedNone(m, InvoicePatterns, text, InvoiceMinLength);
    FirstAcceptedNone(m, TotalPatterns, text, CaptureMinLength);
    FirstAcceptedNone(m, DatePatterns, text, CaptureMinLength);
  }

  /** Each weight is added at most once, so the confidence takes one of six values and never exceeds 100. */
  lemma ConfidenceValues(m: Matcher, text: string)
    ensures Extract(m, text).confidence in {0, 30, 35, 65, 70, 100}
    ensures Extract(m, text).confidence <= 100
  {
  }

  /**
   * The confidence tells which fields were found: the date exactly when it is
   * 30, 65 or 100, both the invoice number and the total exactly when it
   * reaches 70, and neither of those two exactly when it is below 35.
   */
  lemma ConfidenceReflectsMatches(m: Matcher, text: string)
    ensures var c := Extract(m, text).confidence;
      && (DateCapture(m, text).Some? <==> c in {30, 65, 100})
      && (InvoiceCapture(m, text).Some? && TotalCapture(m, text).Some? <==> c >= 70)
      && (InvoiceCapture(m, text).None? && TotalCapture(m, text).None? <==> c < 35)
  {
  }

  /** Two engines that agree on a field's patterns find the same capture for it. */
  lemma {:induction false} FirstAcceptedAgrees(m1: Matcher, m2: Matcher, patterns: seq<Pattern>, text: string, minLength: nat)
    requires forall i :: 0 <= i < |patterns| ==> m1(patterns[i], text) == m2(patterns[i], text)
    ensures FirstAccepted(m1, patterns, text, minLength) == FirstAccepted(m2, patterns, text, minLength)
    decreases |patterns|
  {
    if patterns != [] {
      assert m1(patterns[0], text) == m2(patterns[0], text);
      FirstAcceptedAgrees(m1, m2, patterns[1..], text, minLength);
    }
  }

  /**
   * One field's outcome depends only on its own patterns: two engines that
   * agree on the invoice patterns give the same invoice number and the same
   * invoice weight in the confidence, whatever the other patterns capture.
   */
  lemma {:induction false} FieldsIndependent(m1: Matcher, m2: Matcher, text: string)
    requires forall p :: p in InvoicePatterns ==> m1(p, text) == m2(p, text)
    ensures Extract(m1, text).invoiceNo == Extract(m2, text).invoiceNo
    ensures InvoiceCapture(m1, text).Some? == InvoiceCapture(m2, text).Some?
    ensures WeightIf(InvoiceCapture(m1, text), InvoiceWeight) == WeightIf(InvoiceCapture(m2, text), InvoiceWeight)
  {
    FirstAcceptedAgrees(m1, m2, InvoicePatterns, text, InvoiceMinLength);
  }

  /** The same for the total: only the total patterns decide it and its weight. */
  lemma {:induction false} TotalIndependent(m1: Matcher, m2: Matcher, text: string)
    requires forall p :: p in TotalPatterns ==> m1(p, text) == m2(p, text)
    ensures Extract(m1, text).total == Extract(m2, text).total
    ensures TotalCapture(m1, text).Some? == TotalCapture(m2, text).Some?
    ensures WeightIf(TotalCapture(m1, text), TotalWeight) == WeightIf(TotalCapture(m2, text), TotalWeight)
  {
    FirstAcceptedAgrees(m1, m2, TotalPatterns, text, CaptureMinLength);
  }

  /** The same for the date: only the date patterns decide it and its weight. */
  lemma {:induction false} DateIndependent(m1: Matcher, m2: Matcher, text: string)
    requires forall p :: p in DatePatterns ==> m1(p, text) == m2(p, text)
    ensures Extract(m1, text).date == Extract(m2, text).date
    ensures DateCapture(m1, text).Some? == DateCapture(m2, text).Some?
    ensures WeightIf(DateCapture(m1, text), DateWeight) == WeightIf(DateCapture(m2, text), DateWeight)
  {
    FirstAcceptedAgrees(m1, m2, DatePatterns, text, CaptureMinLength);
  }

  /** An invoice-number capture of three characters or fewer falls through to the next pattern. */
  lemma ShortInvoiceCaptureFallsThrough(m: Matcher, text: string)
    requires m(InvoiceLabel, text).Some? && |m(InvoiceLabel, text).value| <= 3
    ensures Extract(m, text).invoiceNo
         == (if Accepted(m(AirtelBlackId, text), InvoiceMinLength) then Text.Trim(m(AirtelBlackId, text).value) else "N/A")
  {
    assert InvoicePatterns[1..] == [AirtelBlackId];
    assert [AirtelBlackId][1..] == [];
    assert InvoiceCapture(m, text) == FirstAccepted(m, [AirtelBlackId], text, InvoiceMinLength);
    assert FirstAccepted(m, [], text, InvoiceMinLength) == None;
  }

  /**
   * The total comes from the first pattern that matches, not from the largest
   * amount, and is stored with every comma removed.
   */
  lemma TotalFromFirstMatch(m: Matcher, text: string)
    requires m(TotalLabel, text).Some? && m(TotalLabel, text).value != ""
    ensures var r := Extract(m, text).total;
      && r == Text.Keep(m(TotalLabel, text).value, NotComma)
      && ',' !in r
      && forall c :: c != ',' ==> multiset(r)[c] == multiset(m(TotalLabel, text).value)[c]
  {
    Text.KeepCounts(m(TotalLabel, text).value, NotComma);
  }

  /**
   * Removing the commas keeps the other characters in their order: a comma
   * between two comma-free groups (as in "1,250.00") is dropped and the
   * groups are joined ("1250.00").
   */
  lemma CommaDroppedBetween(a: string, b: string)
    requires ',' !in a && ',' !in b
    ensures Text.Keep(a + [','] + b, NotComma) == a + b
  {
    assert forall i :: 0 <= i < |a| ==> NotComma(a[i]);
    assert forall i :: 0 <= i < |b| ==> NotComma(b[i]);
    assert a + [','] + b == a + ([','] + b);
    Text.KeepConcat(a, [','] + b, NotComma);
    Text.KeepConcat([','], b, NotComma);
    Text.KeepSingle(',', NotComma);
    Text.KeepAll(a, NotComma);
    Text.KeepAll(b, NotComma);
  }

  /** The date is the trimmed capture of the first matching date pattern, with no calendar normalisation. */
  lemma DateFromFirstMatch(m: Matcher, text: string)
    requires m(DateLabel, text).Some? && m(DateLabel, text).value != ""
    ensures Extract(m, text).date == Text.Trim(m(DateLabel, text).value)
  {
  }
}
