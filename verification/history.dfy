/**
 * The search box of FrontEnd/invoice-extractor-system/src/components/History.jsx:
 * the invoices whose vendor or invoice number contains the search text,
 * compared in lower case, in their original order.
 */
module History {
  import Text
  import opened Wrappers

  /** The two fields the filter reads; None is a missing key (`?.` then yields undefined). */
  datatype HistoryItem = HistoryItem(vendor: Option<string>, invoiceNo: Option<string>)

  /** `field?.toLowerCase().includes(search.toLowerCase())`: a missing field never matches. */
  predicate FieldMatches(field: Option<string>, search: string) {
    field.Some? && Text.Contains(Text.ToLower(field.value), Text.ToLower(search))
  }

  /** The filter's predicate: the vendor matches, or else the invoice number does. */
  predicate Keeps(item: HistoryItem, search: string) {
    FieldMatches(item.vendor, search) || FieldMatches(item.invoiceNo, search)
  }

  /** `invoices.filter(...)`: exactly the kept invoices, each as often as before. */
  function Filtered(items: seq<HistoryItem>, search: string): (r: seq<HistoryItem>)
    ensures |r| <= |items|
    ensures forall i :: 0 <= i < |r| ==> Keeps(r[i], search)
    ensures forall x :: x in r <==> x in items && Keeps(x, search)
    ensures forall x :: multiset(r)[x] == if Keeps(x, search) then multiset(items)[x] else 0
  {
    if items == [] then []
    else
      assert items == [items[0]] + items[1..];
      var rest := Filtered(items[1..], search);
      if Keeps(items[0], search) then [items[0]] + rest else rest
  }

  /** `a` is `b` with some elements left out, the rest in their original order. */
  predicate SubsequenceOf(a: seq<HistoryItem>, b: seq<HistoryItem>)
    decreases |b|
  {
    a == [] || (b != [] && ((a[0] == b[0] && SubsequenceOf(a[1..], b[1..])) || SubsequenceOf(a, b[1..])))
  }

  /** The filtered list keeps the original order. */
  lemma {:induction false} FilteredIsSubsequence(items: seq<HistoryItem>, search: string)
    ensures SubsequenceOf(Filtered(items, search), items)
    decreases |items|
  {
    if items != [] {
      FilteredIsSubsequence(items[1..], search);
      var rest := Filtered(items[1..], search);
      if Keeps(items[0], search) {
        assert Filtered(items, search) == [items[0]] + rest;
        assert ([items[0]] + rest)[1..] == rest;
      }
    }
  }

  /** Filtering the result again with the same search changes nothing. */
  lemma {:induction false} FilterIdempotent(items: seq<HistoryItem>, search: string)
    ensures Filtered(Filtered(items, search), search) == Filtered(items, search)
    decreases |items|
  {
    if items != [] {
      FilterIdempotent(items[1..], search);
      var rest := Filtered(items[1..], search);
      if Keeps(items[0], search) {
        assert ([items[0]] + rest)[1..] == rest;
      }
    }
  }

  /** Two searches that agree in lower case keep exactly the same invoices. */
  lemma {:induction false} SearchIsCaseInsensitive(items: seq<HistoryItem>, s1: string, s2: string)
    requires Text.ToLower(s1) == Text.ToLower(s2)
    ensures Filtered(items, s1) == Filtered(items, s2)
    decreases |items|
  {
    if items != [] {
      SearchIsCaseInsensitive(items[1..], s1, s2);
      assert Keeps(items[0], s1) == Keeps(items[0], s2);
    }
  }

  /** In particular, upper-case letters in the search text do not matter. */
  lemma UpperCaseSearchIgnored(items: seq<HistoryItem>, search: string)
    ensures Filtered(items, search) == Filtered(items, Text.ToLower(search))
  {
    Text.ToLowerIdempotent(search);
    SearchIsCaseInsensitive(items, search, Text.ToLower(search));
  }

  /** An empty search keeps an invoice exactly when it has a vendor or an invoice number, even an empty one. */
  lemma EmptySearchKeepsItemsWithAField(item: HistoryItem)
    ensures Keeps(item, "") <==> item.vendor.Some? || item.invoiceNo.Some?
  {
    if item.vendor.Some? {
      assert Text.OccursAt(Text.ToLower(item.vendor.value), Text.ToLower(""), 0);
    }
    if item.invoiceNo.Some? {
      assert Text.OccursAt(Text.ToLower(item.invoiceNo.value), Text.ToLower(""), 0);
    }
  }
}
