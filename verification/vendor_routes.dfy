/**
 * POST /vendor/save of BackEnd/routes/vendor.js: look a template up by
 * sender e-mail alone; if one exists, replace its mapping and bump its
 * version; otherwise create one from the request. The route carries no
 * owner, so the create is always refused by the schema (owner required).
 */
module VendorRoutes {
  import opened Wrappers
  import Text
  import opened Schema
  import opened VendorModel

  /** What the route does with the request: a `{ success: true }` reply, or a rejected save. */
  datatype SaveOutcome = Responded(success: bool) | Rejected(error: SaveError)

  /** At most one template per sender e-mail, whoever owns it. */
  ghost predicate OnePerSender(ts: seq<VendorTemplate>) {
    forall i, j :: 0 <= i < j < |ts| ==> ts[i].senderEmail != ts[j].senderEmail
  }

  lemma SameSendersKeepOnePerSender(a: seq<VendorTemplate>, b: seq<VendorTemplate>)
    requires |a| == |b| && forall i :: 0 <= i < |a| ==> a[i].senderEmail == b[i].senderEmail
    requires OnePerSender(a)
    ensures OnePerSender(b)
  {
    forall i, j | 0 <= i < j < |b|
      ensures b[i].senderEmail != b[j].senderEmail
    {
      assert a[i].senderEmail != a[j].senderEmail;
    }
  }

  /** The mapping object of the request as stored by assignment: keys it leaves out are absent. */
  function RequestedMapping(mapping: Option<Mapping>): Mapping {
    mapping.GetOr(NoMapping)
  }

  /** The found template with the request's mapping and its version bumped by one. */
  function Bumped(t: VendorTemplate, mapping: Option<Mapping>): VendorTemplate {
    t.(mapping := RequestedMapping(mapping), version := t.version + 1)
  }

  /** `existing.mapping = mapping; existing.version++; await existing.save()`. */
  method UpdateExisting(store: TemplateStore, i: nat, mapping: Option<Mapping>)
    requires store.Valid() && i < |store.templates|
    modifies store
    ensures store.Valid()
    ensures store.templates == old(store.templates)[i := Bumped(old(store.templates)[i], mapping)]
  {
    var existing := store.templates[i];
    existing := existing.(mapping := RequestedMapping(mapping));
    existing := existing.(version := existing.version + 1);
    assert SameKey(existing, old(store.templates)[i]);
    var saved := store.SaveAt(i, existing);
  }

  /**
   * `Vendor.create({ senderEmail, vendorName, mapping })`: the request has no
   * owner, so validation refuses the document and nothing is stored.
   */
  method CreateFromRequest(store: TemplateStore, email: Option<string>, vendorName: Option<string>, mapping: Option<Mapping>, now: int)
    returns (outcome: SaveOutcome)
    requires store.Valid()
    modifies store
    ensures store.Valid()
    ensures outcome.Rejected? && outcome.error.Invalid?
    ensures RequiredError("userId") in outcome.error.validation.errors
    ensures store.templates == old(store.templates)
  {
    var input := TemplateInput(None, email, vendorName, mapping);
    var created := store.Insert(input, now);
    outcome := Rejected(created.error);
  }

  method SaveMapping(store: TemplateStore, email: Option<string>, vendorName: Option<string>, mapping: Option<Mapping>, now: int)
    returns (outcome: SaveOutcome)
    requires store.Valid()
    modifies store
    ensures store.Valid()
    ensures FindBySender(old(store.templates), email).Some? ==>
      && outcome == Responded(true)
      && var i := FindBySender(old(store.templates), email).value;
         store.templates == old(store.templates)[i := Bumped(old(store.templates)[i], mapping)]
    ensures FindBySender(old(store.templates), email).None? ==>
      && outcome.Rejected? && outcome.error.Invalid?
      && RequiredError("userId") in outcome.error.validation.errors
      && store.templates == old(store.templates)
    ensures OnePerSender(old(store.templates)) ==> OnePerSender(store.templates)
  {
    var found := FindBySender(store.templates, email);
    if found.Some? {
      ghost var before := store.templates;
      UpdateExisting(store, found.value, mapping);
      if OnePerSender(before) {
        SameSendersKeepOnePerSender(before, store.templates);
      }
      outcome := Responded(true);
    } else {
      outcome := CreateFromRequest(store, email, vendorName, mapping, now);
    }
  }
}
