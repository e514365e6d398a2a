/**
 * The client-side filter and sort engine of the corporate usage dashboard
 * (recoveryfit-corp-dashboard/assets/js/rf-corp-dashboard.js): invoice groups as the
 * page receives them in RF_CORP_DATA, the search, invoice and date predicates that
 * are combined with AND, the sort orders, the membership summary and the invoice
 * filter options. The view state that the event handlers change is the class CorpView.
 *
 * Date.now() is the parameter `nowMs`; a missing or null string property is "".
 */
module RfCorpDashboard {
  import opened Wrappers
  import opened Seqs
  import opened Text
  import opened Sorting

  // ---------------------------------------------------------------- data as the page receives it

  datatype JsUser = JsUser(name: string, email: string, username: string)

  /** A parent group; `subAccounts` is None when it is not an array. */
  datatype JsParent = JsParent(parentLabel: string, subAccounts: Option<seq<JsUser>>)

  /** An invoice group; `parents` is None when it is not an array. */
  datatype JsInvoice = JsInvoice(invoiceLabel: string, totalLogins: int, lastLoginTs: Option<int>,
                                 parents: Option<seq<JsParent>>)

  /** A membership of a sub-account: product_title ("" when null) and product_id. */
  datatype JsMembership = JsMembership(productTitle: string, productId: int)

  /** The placeholder shown for an empty cell. */
  const Dash := "\U{2014}"

  // ---------------------------------------------------------------- buildMembershipSummary

  /** A membership's part of the summary: its title, or "#" and its product ID when the title is empty. */
  function SummaryPart(m: JsMembership): (r: string)
    ensures r != ""
  {
    if m.productTitle != "" then m.productTitle else "#" + DecimalString(m.productId)
  }

  function SummaryParts(ms: seq<JsMembership>): (r: seq<string>)
    ensures |r| == |ms| && forall i :: 0 <= i < |ms| ==> r[i] == SummaryPart(ms[i])
  {
    seq(|ms|, i requires 0 <= i < |ms| => SummaryPart(ms[i]))
  }

  /** Boolean as a filter callback on strings: the non-empty ones. */
  function Truthy(s: string): bool { s != "" }

  /** buildMembershipSummary: the dash for no memberships; otherwise the parts, filtered, joined with ", ". */
  function BuildMembershipSummary(memberships: Option<seq<JsMembership>>): string
  {
    if memberships.None? || |memberships.value| == 0 then Dash
    else Join(Filter(SummaryParts(memberships.value), Truthy), ", ")
  }

  /** filter(Boolean) never drops a part, so the summary lists one part per membership, in order. */
  lemma {:induction false} FilterTruthyKeepsAll(parts: seq<string>)
    requires forall i :: 0 <= i < |parts| ==> parts[i] != ""
    ensures Filter(parts, Truthy) == parts
  {
    if parts != [] {
      var n := |parts| - 1;
      FilterTruthyKeepsAll(parts[..n]);
      assert parts == parts[..n] + [parts[n]];
    }
  }

  /**
   * The summary of a non-empty list is the ", "-joined parts, one per membership; a
   * part without a title is "#" followed by the product ID, which reads back as that ID.
   */
  lemma MembershipSummaryParts(ms: seq<JsMembership>)
    requires ms != []
    ensures BuildMembershipSummary(Some(ms)) == Join(SummaryParts(ms), ", ")
    ensures forall i :: 0 <= i < |ms| && ms[i].productTitle == "" ==>
      SummaryParts(ms)[i][0] == '#' && LeadingInt(SummaryParts(ms)[i][1..]) == Some(ms[i].productId)
  {
    FilterTruthyKeepsAll(SummaryParts(ms));
    forall i | 0 <= i < |ms| && ms[i].productTitle == ""
      ensures SummaryParts(ms)[i][0] == '#' && LeadingInt(SummaryParts(ms)[i][1..]) == Some(ms[i].productId)
    {
      ParseDecimalString(ms[i].productId);
      assert SummaryParts(ms)[i][1..] == DecimalString(ms[i].productId);
    }
  }

  // ---------------------------------------------------------------- matchesSearch

  predicate UserMatches(u: JsUser, needle: string)
  {
    Contains(Lower(u.name), needle) || Contains(Lower(u.email), needle) || Contains(Lower(u.username), needle)
  }

  predicate ParentMatches(p: JsParent, needle: string)
  {
    || (p.parentLabel != "" && Contains(Lower(p.parentLabel), needle))
    || (p.subAccounts.Some? &&
        exists j :: 0 <= j < |p.subAccounts.value| && UserMatches(p.subAccounts.value[j], needle))
  }

  /**
   * matchesSearch: every invoice for an empty term; otherwise the lowered term occurs in
   * the lowered invoice label, in some parent label, or in the name, email or username
   * of some sub-account. Parents or sub-accounts that are not arrays match nothing.
   */
  predicate MatchesSearch(inv: JsInvoice, searchTerm: string)
  {
    if searchTerm == "" then true
    else
      var needle := Lower(searchTerm);
      || (inv.invoiceLabel != "" && Contains(Lower(inv.invoiceLabel), needle))
      || (inv.parents.Some? && exists i :: 0 <= i < |inv.parents.value| && ParentMatches(inv.parents.value[i], needle))
  }

  /** The search ignores case: a term and its lowered form select the same invoices. */
  lemma MatchesSearchIgnoresCase(inv: JsInvoice, searchTerm: string)
    ensures MatchesSearch(inv, searchTerm) == MatchesSearch(inv, Lower(searchTerm))
  {
    LowerLower(searchTerm, 0);
  }

  /** Narrowing: an invoice that matches a term matches every prefix of it. */
  lemma MatchesSearchPrefix(inv: JsInvoice, searchTerm: string, k: nat)
    requires k <= |searchTerm| && MatchesSearch(inv, searchTerm)
    ensures MatchesSearch(inv, searchTerm[..k])
  {
    if k > 0 {
      var needle := Lower(searchTerm);
      LowerLower(searchTerm, k);
      var short := needle[..k];
      assert Lower(searchTerm[..k]) == short;
      if inv.invoiceLabel != "" && Contains(Lower(inv.invoiceLabel), needle) {
        ContainsPrefix(Lower(inv.invoiceLabel), needle, k);
      } else {
        var ps := inv.parents.value;
        var i :| 0 <= i < |ps| && ParentMatches(ps[i], needle);
        ParentMatchesPrefix(ps[i], needle, k);
      }
    }
  }

  lemma ParentMatchesPrefix(p: JsParent, needle: string, k: nat)
    requires k <= |needle| && ParentMatches(p, needle)
    ensures ParentMatches(p, needle[..k])
  {
    if p.parentLabel != "" && Contains(Lower(p.parentLabel), needle) {
      ContainsPrefix(Lower(p.parentLabel), needle, k);
    } else {
      var us := p.subAccounts.value;
      var j :| 0 <= j < |us| && UserMatches(us[j], needle);
      var u := us[j];
      if Contains(Lower(u.name), needle) {
        ContainsPrefix(Lower(u.name), needle, k);
      } else if Contains(Lower(u.email), needle) {
        ContainsPrefix(Lower(u.email), needle, k);
      } else {
        ContainsPrefix(Lower(u.username), needle, k);
      }
      assert UserMatches(us[j], needle[..k]);
    }
  }

  // ---------------------------------------------------------------- passesDateFilter

  /** The timestamp as Number(last_login_ts || 0) reads it. */
  function TsOrZero(inv: JsInvoice): int
  {
    if inv.lastLoginTs.Some? then inv.lastLoginTs.value else 0
  }

  /**
   * passesDateFilter: every invoice for 'all', for a filter parseInt cannot read and
   * for a non-positive day count; otherwise a non-zero timestamp at or after
   * now/1000 - days*86400 seconds, compared as numbers.
   */
  predicate PassesDateFilter(inv: JsInvoice, dateFilter: string, nowMs: int)
  {
    if dateFilter == "all" then true
    else match LeadingInt(dateFilter)
      case None => true
      case Some(days) =>
        if days <= 0 then true
        else
          var threshold: real := nowMs as real / 1000.0 - (days * 24 * 60 * 60) as real;
          var lastTs := TsOrZero(inv);
          lastTs != 0 && lastTs as real >= threshold
  }

  /** With a positive day count, the date filter is an integer comparison in milliseconds. */
  lemma PassesDateFilterMillis(inv: JsInvoice, dateFilter: string, nowMs: int)
    requires dateFilter != "all" && LeadingInt(dateFilter).Some? && LeadingInt(dateFilter).value > 0
    ensures var days := LeadingInt(dateFilter).value;
      PassesDateFilter(inv, dateFilter, nowMs) <==>
        inv.lastLoginTs.Some? && inv.lastLoginTs.value != 0 &&
        inv.lastLoginTs.value * 1000 >= nowMs - days * 86400000
  {
  }

  /** A wider window keeps every invoice a narrower one keeps. */
  lemma PassesDateFilterWider(inv: JsInvoice, narrow: nat, wide: nat, nowMs: int)
    requires 0 < narrow <= wide
    requires PassesDateFilter(inv, DecimalString(narrow), nowMs)
    ensures PassesDateFilter(inv, DecimalString(wide), nowMs)
  {
    ParseDecimalString(narrow);
    ParseDecimalString(wide);
    assert DecimalString(narrow) != "all" && DecimalString(wide) != "all" by {
      assert DecimalString(narrow)[0] != 'a' && DecimalString(wide)[0] != 'a';
    }
    PassesDateFilterMillis(inv, DecimalString(narrow), nowMs);
    PassesDateFilterMillis(inv, DecimalString(wide), nowMs);
  }

  // ---------------------------------------------------------------- filterInvoices

  /** The three predicates of filterInvoices, combined with AND. */
  predicate Keeps(inv: JsInvoice, invoiceFilter: string, searchTerm: string, dateFilter: string, nowMs: int)
  {
    && (invoiceFilter == "all" || inv.invoiceLabel == invoiceFilter)
    && PassesDateFilter(inv, dateFilter, nowMs)
    && MatchesSearch(inv, searchTerm)
  }

  function KeepFn(invoiceFilter: string, searchTerm: string, dateFilter: string, nowMs: int)
    : Option<JsInvoice> -> Option<JsInvoice>
  {
    (o: Option<JsInvoice>) => if o.Some? && Keeps(o.value, invoiceFilter, searchTerm, dateFilter, nowMs) then o else None
  }

  /** filterInvoices: the non-null invoices that pass, in their order. */
  function FilterInvoices(invoices: seq<Option<JsInvoice>>, invoiceFilter: string, searchTerm: string,
                          dateFilter: string, nowMs: int): seq<JsInvoice>
  {
    FilterMap(invoices, KeepFn(invoiceFilter, searchTerm, dateFilter, nowMs))
  }

  /**
   * The result of filterInvoices is the subsequence at positions `idx` of the input:
   * exactly the non-null invoices that pass all three predicates, in input order.
   */
  lemma FilterInvoicesExactly(invoices: seq<Option<JsInvoice>>, invoiceFilter: string, searchTerm: string,
                              dateFilter: string, nowMs: int) returns (idx: seq<int>)
    ensures var r := FilterInvoices(invoices, invoiceFilter, searchTerm, dateFilter, nowMs);
      |idx| == |r| &&
      (forall k :: 0 <= k < |idx| ==> 0 <= idx[k] < |invoices| && invoices[idx[k]] == Some(r[k])) &&
      (forall k, l :: 0 <= k < l < |idx| ==> idx[k] < idx[l]) &&
      (forall i :: 0 <= i < |invoices| ==>
         (invoices[i].Some? && Keeps(invoices[i].value, invoiceFilter, searchTerm, dateFilter, nowMs) <==> i in idx))
  {
    idx := FilterMapPicks(invoices, KeepFn(invoiceFilter, searchTerm, dateFilter, nowMs));
  }

  function NonNull(o: Option<JsInvoice>): Option<JsInvoice> { o }

  /** With the initial state ('all', no search, 'all' dates) every non-null invoice is shown. */
  lemma FilterInvoicesInitial(invoices: seq<Option<JsInvoice>>, nowMs: int)
    ensures FilterInvoices(invoices, "all", "", "all", nowMs) == FilterMap(invoices, NonNull)
  {
    FilterMapSame(invoices, KeepFn("all", "", "all", nowMs), NonNull);
  }

  // ---------------------------------------------------------------- sortInvoices

  /** Comparator of 'logins': Number(b.total_logins) - Number(a.total_logins) <= 0. */
  predicate LoginsDesc(a: JsInvoice, b: JsInvoice)
  {
    b.totalLogins - a.totalLogins <= 0
  }

  /** Comparator of 'last_login': later timestamps first, a missing one read as 0. */
  predicate LatestFirst(a: JsInvoice, b: JsInvoice)
  {
    TsOrZero(b) - TsOrZero(a) <= 0
  }

  /** Comparator of every other mode: the lowered labels in order. */
  predicate LabelOrder(a: JsInvoice, b: JsInvoice)
  {
    LexLe(Lower(a.invoiceLabel), Lower(b.invoiceLabel))
  }

  function OrderFor(sortMode: string): (JsInvoice, JsInvoice) -> bool
  {
    if sortMode == "logins" then LoginsDesc
    else if sortMode == "last_login" then LatestFirst
    else LabelOrder
  }

  /** Each comparator is consistent, so the sort orders by it. */
  lemma OrderForConsistent(sortMode: string)
    ensures TotalPreorder(OrderFor(sortMode))
  {
    forall a: JsInvoice, b: JsInvoice ensures LabelOrder(a, b) || LabelOrder(b, a) {
      LexLeTotal(Lower(a.invoiceLabel), Lower(b.invoiceLabel));
    }
    forall a: JsInvoice, b: JsInvoice, c: JsInvoice | LabelOrder(a, b) && LabelOrder(b, c)
      ensures LabelOrder(a, c)
    {
      LexLeTransitive(Lower(a.invoiceLabel), Lower(b.invoiceLabel), Lower(c.invoiceLabel));
    }
  }

  /** sortInvoices: sort a copy of the list with the comparator of the sort mode. */
  method SortInvoices(list: seq<JsInvoice>, sortMode: string) returns (sorted: seq<JsInvoice>)
    ensures sorted == StableSort(list, OrderFor(sortMode))
  {
    if sortMode == "logins" {
      sorted := SortCopy(list, LoginsDesc);
    } else if sortMode == "last_login" {
      sorted := SortCopy(list, LatestFirst);
    } else {
      sorted := SortCopy(list, LabelOrder);
    }
  }

  /**
   * The sorted list is a permutation of the input, ordered by total logins (descending),
   * by timestamp (descending, missing as 0) or by lowered label (ascending); a list
   * already in that order comes back unchanged.
   */
  lemma SortInvoicesOrdered(list: seq<JsInvoice>, sortMode: string)
    ensures var r := StableSort(list, OrderFor(sortMode));
      && multiset(r) == multiset(list)
      && (sortMode == "logins" ==> forall i, j :: 0 <= i < j < |r| ==> r[i].totalLogins >= r[j].totalLogins)
      && (sortMode == "last_login" ==> forall i, j :: 0 <= i < j < |r| ==> TsOrZero(r[i]) >= TsOrZero(r[j]))
      && (sortMode != "logins" && sortMode != "last_login" ==>
            forall i, j :: 0 <= i < j < |r| ==> LexLe(Lower(r[i].invoiceLabel), Lower(r[j].invoiceLabel)))
      && (SortedBy(list, OrderFor(sortMode)) ==> r == list)
  {
    var le := OrderFor(sortMode);
    StableSortPermutation(list, le);
    OrderForConsistent(sortMode);
    StableSortSorted(list, le);
    if SortedBy(list, le) {
      StableSortOfSorted(list, le);
    }
  }

  // ---------------------------------------------------------------- invoice filter options

  function OptionLabel(o: Option<JsInvoice>): Option<string>
  {
    if o.Some? && o.value.invoiceLabel != "" then Some(o.value.invoiceLabel) else None
  }

  /** The options of the invoice filter: a Set seeded with 'all', then every non-empty label. */
  function InvoiceOptions(invoices: seq<Option<JsInvoice>>): seq<string>
  {
    Dedup(["all"] + FilterMap(invoices, OptionLabel))
  }

  /** The forEach that adds each non-empty invoice label to the option set. */
  method BuildInvoiceOptions(invoices: seq<Option<JsInvoice>>) returns (options: seq<string>)
    ensures options == InvoiceOptions(invoices)
  {
    options := ["all"];
    assert Dedup(["all"]) == ["all"] by {
      assert ["all"][..0] == [];
    }
    assert ["all"] + FilterMap(invoices[..0], OptionLabel) == ["all"];
    var k := 0;
    while k < |invoices|
      invariant 0 <= k <= |invoices|
      invariant options == Dedup(["all"] + FilterMap(invoices[..k], OptionLabel))
    {
      var seen := ["all"] + FilterMap(invoices[..k], OptionLabel);
      assert invoices[..k + 1][..k] == invoices[..k];
      if invoices[k].Some? && invoices[k].value.invoiceLabel != "" {
        var key := invoices[k].value.invoiceLabel;
        assert ["all"] + FilterMap(invoices[..k + 1], OptionLabel) == seen + [key];
        DedupAppend(seen, key);
        if key !in options {
          options := options + [key];
        }
      } else {
        assert ["all"] + FilterMap(invoices[..k + 1], OptionLabel) == seen;
      }
      k := k + 1;
    }
    assert invoices[..k] == invoices;
  }

  /**
   * The options start with 'all', list each value once, and hold exactly 'all' and the
   * non-empty labels of the non-null invoices.
   */
  lemma InvoiceOptionsExactly(invoices: seq<Option<JsInvoice>>)
    ensures var opts := InvoiceOptions(invoices);
      && opts != [] && opts[0] == "all"
      && Distinct(opts)
      && forall x :: x in opts <==>
           x == "all" || exists i :: 0 <= i < |invoices| && invoices[i].Some? &&
                                     invoices[i].value.invoiceLabel == x && x != ""
  {
    var labels := FilterMap(invoices, OptionLabel);
    var idx := FilterMapPicks(invoices, OptionLabel);
    var opts := InvoiceOptions(invoices);
    assert "all" in opts;
    DedupFirstSeenOrder(["all"] + labels);
    var s := ["all"] + labels;
    assert FirstIndex(s, "all") == 0;
    forall x ensures x in opts <==>
      x == "all" || exists i :: 0 <= i < |invoices| && invoices[i].Some? && invoices[i].value.invoiceLabel == x && x != ""
    {
      if x in labels {
        var k :| 0 <= k < |labels| && labels[k] == x;
        assert OptionLabel(invoices[idx[k]]) == Some(x);
      }
      if exists i :: 0 <= i < |invoices| && invoices[i].Some? && invoices[i].value.invoiceLabel == x && x != "" {
        var i :| 0 <= i < |invoices| && invoices[i].Some? && invoices[i].value.invoiceLabel == x && x != "";
        assert OptionLabel(invoices[i]).Some?;
        var k :| 0 <= k < |idx| && idx[k] == i;
        assert labels[k] == x;
      }
    }
  }

  // ---------------------------------------------------------------- the view state

  /** The dashboard's `state` object, which the event handlers update before re-rendering. */
  class CorpView {
    var invoices: seq<Option<JsInvoice>>
    var invoiceFilter: string
    var searchTerm: string
    var dateFilter: string
    var sortMode: string

    /** The state as the page starts: every filter off, sorted by label. */
    constructor (invoices: seq<Option<JsInvoice>>)
      ensures this.invoices == invoices
      ensures invoiceFilter == "all" && searchTerm == "" && dateFilter == "all" && sortMode == "label"
    {
      this.invoices := invoices;
      invoiceFilter := "all";
      searchTerm := "";
      dateFilter := "all";
      sortMode := "label";
    }

    /** The invoice filter's change handler. */
    method SelectInvoice(value: string)
      modifies this
      ensures invoiceFilter == value
      ensures invoices == old(invoices) && searchTerm == old(searchTerm)
      ensures dateFilter == old(dateFilter) && sortMode == old(sortMode)
    {
      invoiceFilter := value;
    }

    /** The search box's input handler: the trimmed, lowered text. */
    method TypeSearch(value: string)
      modifies this
      ensures searchTerm == Lower(JsTrim(value))
      ensures invoices == old(invoices) && invoiceFilter == old(invoiceFilter)
      ensures dateFilter == old(dateFilter) && sortMode == old(sortMode)
    {
      searchTerm := Lower(JsTrim(value));
    }

    /** The date filter's change handler. */
    method SelectDates(value: string)
      modifies this
      ensures dateFilter == value
      ensures invoices == old(invoices) && invoiceFilter == old(invoiceFilter)
      ensures searchTerm == old(searchTerm) && sortMode == old(sortMode)
    {
      dateFilter := value;
    }

    /** The sort control's change handler. */
    method SelectSort(value: string)
      modifies this
      ensures sortMode == value
      ensures invoices == old(invoices) && invoiceFilter == old(invoiceFilter)
      ensures searchTerm == old(searchTerm) && dateFilter == old(dateFilter)
    {
      sortMode := value;
    }

    /** What render shows: the filtered invoices, sorted; the state is left as it was. */
    method Shown(nowMs: int) returns (cards: seq<JsInvoice>)
      ensures cards == StableSort(FilterInvoices(invoices, invoiceFilter, searchTerm, dateFilter, nowMs),
                                  OrderFor(sortMode))
    {
      var filtered := FilterInvoices(invoices, invoiceFilter, searchTerm, dateFilter, nowMs);
      cards := SortInvoices(filtered, sortMode);
    }
  }
}
