/**
 * The MemberPress corporate reporting admin page (memberpress-corporate-reporting.php):
 * how the request parameters become filters, the membership-ID list and ORDER BY
 * clause that reach the SQL text, the min_logins post-filter, the enhancement of
 * result rows and sub-accounts, the summary of the AJAX reply and the CSV export.
 *
 * The database is the parameter `query` (the rows get_results returns for a set of
 * filters) and `subRowsOf` (the sub-account rows of a parent); sanitize_text_field is
 * `sanitize`; strtotime, human_time_diff and current_time together are `humanDiff`.
 */
module CorporateReporting {
  import opened Wrappers
  import opened Seqs
  import opened Text
  import opened WpValues
  import opened Folds

  // ---------------------------------------------------------------- filters from the request

  /** The filters get_corporate_data reads. */
  datatype Filters = Filters(search: string, location: string, membershipIds: seq<int>, minLogins: int,
                             orderBy: string, order: string)

  /**
   * The request parameters, each None when unset; `Ids` is an array of strings for the
   * AJAX POST and a comma-separated string for the CSV GET.
   */
  datatype Request<Ids> = Request(search: Option<string>, location: Option<string>, membershipIds: Option<Ids>,
                                  minLogins: Option<string>, orderBy: Option<string>, order: Option<string>)

  function SanitizedOr(value: Option<string>, sanitize: string -> string, default: string): string
  {
    if value.Some? then sanitize(value.value) else default
  }

  function IntVals(parts: seq<string>): (r: seq<int>)
    ensures |r| == |parts| && forall i :: 0 <= i < |parts| ==> r[i] == IntVal(parts[i])
  {
    seq(|parts|, i requires 0 <= i < |parts| => IntVal(parts[i]))
  }

  predicate IsComma(c: char) { c == ',' }

  /** array_map('intval', explode(',', s)). */
  function ParseIdList(s: string): seq<int>
  {
    IntVals(SplitBy(s, IsComma))
  }

  /** The filters of ajax_get_report_data. */
  function PostFilters(req: Request<seq<string>>, sanitize: string -> string): Filters
  {
    Filters(SanitizedOr(req.search, sanitize, ""), SanitizedOr(req.location, sanitize, ""),
            if req.membershipIds.Some? then IntVals(req.membershipIds.value) else [],
            if req.minLogins.Some? then IntVal(req.minLogins.value) else 0,
            SanitizedOr(req.orderBy, sanitize, "total_logins"), SanitizedOr(req.order, sanitize, "DESC"))
  }

  /** The filters of ajax_export_csv. */
  function GetFilters(req: Request<string>, sanitize: string -> string): Filters
  {
    Filters(SanitizedOr(req.search, sanitize, ""), SanitizedOr(req.location, sanitize, ""),
            if req.membershipIds.Some? then ParseIdList(req.membershipIds.value) else [],
            if req.minLogins.Some? then IntVal(req.minLogins.value) else 0,
            SanitizedOr(req.orderBy, sanitize, "total_logins"), SanitizedOr(req.order, sanitize, "DESC"))
  }

  // ---------------------------------------------------------------- membership IDs

  const DefaultMembershipIds: seq<int> := [3888, 3889]

  /** The corporate membership IDs: those of the filters, or the defaults when there are none. */
  function CorporateMembershipIds(ids: seq<int>): (r: seq<int>)
    ensures r != []
    ensures ids != [] ==> r == ids
    ensures ids == [] ==> r == [3888, 3889]
  {
    if ids == [] then DefaultMembershipIds else ids
  }

  function IdStrings(ids: seq<int>): (r: seq<string>)
    ensures |r| == |ids| && forall i :: 0 <= i < |ids| ==> r[i] == DecimalString(ids[i])
  {
    seq(|ids|, i requires 0 <= i < |ids| => DecimalString(ids[i]))
  }

  /** The list interpolated into `t.product_id IN (...)`: the IDs as integers, comma-separated. */
  function MembershipIdsSql(ids: seq<int>): string
  {
    Join(IdStrings(CorporateMembershipIds(ids)), ",")
  }

  /** Characters a decimal list may contain. */
  predicate IdListChar(c: char) { IsDigit(c) || c == '-' || c == ',' }

  lemma {:induction false} JoinChars(parts: seq<string>, sep: string, p: char -> bool)
    requires forall k, i :: 0 <= k < |parts| && 0 <= i < |parts[k]| ==> p(parts[k][i])
    requires forall i :: 0 <= i < |sep| ==> p(sep[i])
    ensures forall i :: 0 <= i < |Join(parts, sep)| ==> p(Join(parts, sep)[i])
  {
    if |parts| > 1 {
      var n := |parts| - 1;
      JoinChars(parts[..n], sep, p);
      var front := Join(parts[..n], sep);
      assert Join(parts, sep) == front + sep + parts[n];
      forall i | 0 <= i < |Join(parts, sep)| ensures p(Join(parts, sep)[i]) {
        if i < |front| {
          assert Join(parts, sep)[i] == front[i];
        } else if i < |front| + |sep| {
          assert Join(parts, sep)[i] == sep[i - |front|];
        } else {
          assert Join(parts, sep)[i] == parts[n][i - |front| - |sep|];
        }
      }
    }
  }

  /** Whatever the filters hold, the IN list is made of digits, minus signs and commas only. */
  lemma MembershipIdsSqlSafe(ids: seq<int>)
    ensures forall i :: 0 <= i < |MembershipIdsSql(ids)| ==> IdListChar(MembershipIdsSql(ids)[i])
  {
    var parts := IdStrings(CorporateMembershipIds(ids));
    JoinChars(parts, ",", IdListChar);
  }

  /** Reading the joined list back with explode and intval gives the IDs. */
  lemma IdListRoundTrip(ids: seq<int>)
    requires ids != []
    ensures ParseIdList(Join(IdStrings(ids), ",")) == ids
  {
    var parts := IdStrings(ids);
    forall k | 0 <= k < |parts| ensures NoSep(parts[k], IsComma) {
      assert forall i :: 0 <= i < |parts[k]| ==> IsDigit(parts[k][i]) || parts[k][i] == '-';
    }
    SplitJoin(parts, ',', IsComma);
    forall k | 0 <= k < |ids| ensures IntVal(parts[k]) == ids[k] {
      ParseDecimalString(ids[k]);
    }
  }

  /**
   * The CSV link of the admin page sends the membership IDs joined with ',' where the
   * table request sends them as an array: both handlers arrive at the same filters.
   */
  lemma ExportFiltersMatchTable(search: Option<string>, location: Option<string>, ids: seq<int>,
                                minLogins: Option<string>, orderBy: Option<string>, order: Option<string>,
                                sanitize: string -> string)
    requires ids != []
    ensures PostFilters(Request(search, location, Some(IdStrings(ids)), minLogins, orderBy, order), sanitize) ==
            GetFilters(Request(search, location, Some(Join(IdStrings(ids), ",")), minLogins, orderBy, order), sanitize)
  {
    IdListRoundTrip(ids);
    forall k | 0 <= k < |ids| ensures IntVal(IdStrings(ids)[k]) == ids[k] {
      ParseDecimalString(ids[k]);
    }
  }

  // ---------------------------------------------------------------- ORDER BY

  const OrderColumns: seq<string> :=
    ["parent_username", "company_name", "location", "total_logins", "last_login_date", "sub_account_count"]

  /** The sort direction: ASC exactly when the upper-cased request says so, DESC otherwise. */
  function OrderDirection(order: string): (r: string)
    ensures r == "ASC" || r == "DESC"
  {
    if !PhpEmptyString(order) && Upper(order) == "ASC" then "ASC" else "DESC"
  }

  lemma OrderDirectionAsc(order: string)
    ensures OrderDirection(order) == "ASC" <==> Upper(order) == "ASC"
  {
    if order == "0" {
      assert Upper(order)[0] == '0';
    }
  }

  /**
   * The column and direction of the ORDER BY clause: order_by when it is whitelisted
   * (total_logins when empty) with the requested direction, total_logins DESC otherwise.
   */
  function OrderClause(orderBy: string, order: string): (r: (string, string))
    ensures r.0 in OrderColumns && (r.1 == "ASC" || r.1 == "DESC")
  {
    var column := if PhpEmptyString(orderBy) then "total_logins" else orderBy;
    if column in OrderColumns then (column, OrderDirection(order)) else ("total_logins", "DESC")
  }

  /** The text appended to the query for the sort. */
  function OrderBySql(orderBy: string, order: string): string
  {
    var (column, direction) := OrderClause(orderBy, order);
    " ORDER BY " + column + " " + direction
  }

  /**
   * Whatever the request says, the sort text is one of the twelve fixed clauses; a
   * whitelisted column keeps the requested direction and anything else sorts by
   * total_logins DESC, whatever direction was asked for.
   */
  lemma OrderBySqlWhitelisted(orderBy: string, order: string)
    ensures exists k, d :: 0 <= k < |OrderColumns| && (d == "ASC" || d == "DESC") &&
                           OrderBySql(orderBy, order) == " ORDER BY " + OrderColumns[k] + " " + d
    ensures orderBy in OrderColumns ==> OrderClause(orderBy, order) == (orderBy, OrderDirection(order))
    ensures !PhpEmptyString(orderBy) && orderBy !in OrderColumns ==> OrderClause(orderBy, order) == ("total_logins", "DESC")
  {
    var (column, direction) := OrderClause(orderBy, order);
    var k :| 0 <= k < |OrderColumns| && OrderColumns[k] == column;
    assert OrderBySql(orderBy, order) == " ORDER BY " + OrderColumns[k] + " " + direction;
    if orderBy in OrderColumns {
      assert orderBy != "" && orderBy != "0";
    }
  }

  // ---------------------------------------------------------------- result rows

  /** A sub-account row of get_sub_accounts' query; meta values are None when the join found none. */
  datatype SubSql = SubSql(id: int, userLogin: string, userEmail: string, displayName: string,
                           loginCount: Option<string>, lastLogin: Option<string>,
                           activeSubscriptionCount: Option<string>)

  /** A sub-account row after formatting. */
  datatype SubAccount = SubAccount(id: int, userLogin: string, userEmail: string, displayName: string,
                                   loginCount: int, lastLogin: Option<string>, formattedLastLogin: string,
                                   isActive: bool)

  /**
   * A row of get_corporate_data's query, with COUNT and SUM columns as their integer
   * values; `subAccounts` and `formattedLastLogin` are None until the row is enhanced.
   */
  datatype ReportRow = ReportRow(
    parentId: int,
    parentUsername: string,
    parentEmail: string,
    parentDisplayName: string,
    companyName: Option<string>,
    location: Option<string>,
    membershipId: int,
    subAccountCount: int,
    totalLogins: int,
    lastLoginDate: Option<string>,
    parentSignupDate: string,
    transactionStatus: string,
    subscriptionStatus: Option<string>,
    subAccounts: Option<seq<SubAccount>>,
    formattedLastLogin: Option<string>)

  /** 'Never' for an empty last-login value, the human-readable difference and " ago" otherwise. */
  function FormattedLastLogin(value: Option<string>, humanDiff: string -> string): (r: string)
    ensures r == "Never" <==> PhpEmpty(value)
  {
    if PhpEmpty(value) then "Never"
    else
      var r := humanDiff(value.value) + " ago";
      assert r[|r| - 1] == 'o';
      r
  }

  /** One turn of get_sub_accounts' formatting loop. */
  function FormatSub(s: SubSql, humanDiff: string -> string): (r: SubAccount)
    ensures r.id == s.id && r.userLogin == s.userLogin && r.userEmail == s.userEmail
    ensures r.displayName == s.displayName && r.lastLogin == s.lastLogin
    ensures s.loginCount.None? ==> r.loginCount == 0
    ensures r.formattedLastLogin == "Never" <==> PhpEmpty(s.lastLogin)
    ensures r.isActive <==> s.activeSubscriptionCount.Some? && IntVal(s.activeSubscriptionCount.value) > 0
  {
    SubAccount(s.id, s.userLogin, s.userEmail, s.displayName,
               if s.loginCount.Some? then IntVal(s.loginCount.value) else 0,
               s.lastLogin, FormattedLastLogin(s.lastLogin, humanDiff),
               s.activeSubscriptionCount.Some? && IntVal(s.activeSubscriptionCount.value) > 0)
  }

  /** A login count stored as a decimal number is read back as that number. */
  lemma FormatSubLoginCount(s: SubSql, n: int, humanDiff: string -> string)
    requires s.loginCount == Some(DecimalString(n))
    ensures FormatSub(s, humanDiff).loginCount == n
  {
    ParseDecimalString(n);
  }

  function SubAccountsOf(rows: seq<SubSql>, humanDiff: string -> string): (r: seq<SubAccount>)
    ensures |r| == |rows| && forall i :: 0 <= i < |rows| ==> r[i] == FormatSub(rows[i], humanDiff)
  {
    seq(|rows|, i requires 0 <= i < |rows| => FormatSub(rows[i], humanDiff))
  }

  /** get_sub_accounts: the by-reference foreach over the query's rows. */
  method GetSubAccounts(rows: seq<SubSql>, humanDiff: string -> string) returns (subs: seq<SubAccount>)
    ensures subs == SubAccountsOf(rows, humanDiff)
  {
    subs := [];
    var k := 0;
    while k < |rows|
      invariant 0 <= k <= |rows|
      invariant |subs| == k && forall i :: 0 <= i < k ==> subs[i] == FormatSub(rows[i], humanDiff)
    {
      subs := subs + [FormatSub(rows[k], humanDiff)];
      k := k + 1;
    }
  }

  // ---------------------------------------------------------------- min_logins

  /** A PHP array as its ordered (key, value) pairs. */
  function Keyed<T>(s: seq<T>): (r: seq<(int, T)>)
    ensures |r| == |s| && forall i :: 0 <= i < |s| ==> r[i] == (i, s[i])
  {
    seq(|s|, i requires 0 <= i < |s| => (i, s[i]))
  }

  /** json_encode writes a PHP array as a JSON array exactly when its keys are 0, 1, 2, ... in order. */
  predicate IsList<T>(arr: seq<(int, T)>)
  {
    forall i :: 0 <= i < |arr| ==> arr[i].0 == i
  }

  /**
   * The admin page's success handler (assets/admin.js) renders the table when
   * `data.length > 0`; a JSON object has no length, so it then shows "no data".
   */
  predicate AdminShowsTable<T>(arr: seq<(int, T)>)
  {
    IsList(arr) && |arr| > 0
  }

  predicate RowPasses(r: ReportRow, minLogins: int) { r.totalLogins >= minLogins }

  function KeyedPasses(minLogins: int): ((int, ReportRow)) -> bool
  {
    (p: (int, ReportRow)) => RowPasses(p.1, minLogins)
  }

  function PassesFn(minLogins: int): ReportRow -> bool
  {
    (r: ReportRow) => RowPasses(r, minLogins)
  }

  /** The min_logins post-filter as written: array_filter keeps the rows' original keys. */
  function MinLoginsAsWritten(rows: seq<ReportRow>, minLogins: int): seq<(int, ReportRow)>
  {
    if minLogins == 0 then Keyed(rows) else Filter(Keyed(rows), KeyedPasses(minLogins))
  }

  /** The min_logins post-filter with the kept rows re-indexed (array_values). */
  function MinLoginsFilter(rows: seq<ReportRow>, minLogins: int): seq<ReportRow>
  {
    if minLogins == 0 then rows else Filter(rows, PassesFn(minLogins))
  }

  /** array_values: the values of a keyed array, in order. */
  function Values<T>(arr: seq<(int, T)>): (r: seq<T>)
    ensures |r| == |arr| && forall i :: 0 <= i < |arr| ==> r[i] == arr[i].1
  {
    seq(|arr|, i requires 0 <= i < |arr| => arr[i].1)
  }

  /** The first `n` keyed rows, filtered, have the first `n` rows, filtered, as their values. */
  lemma {:induction false} KeyedFilterValues(rows: seq<ReportRow>, minLogins: int, n: nat)
    requires n <= |rows|
    ensures Values(Filter(Keyed(rows)[..n], KeyedPasses(minLogins))) == Filter(rows[..n], PassesFn(minLogins))
  {
    if n > 0 {
      KeyedFilterValues(rows, minLogins, n - 1);
      var k := Keyed(rows)[..n];
      assert k[..n - 1] == Keyed(rows)[..n - 1] && k[n - 1] == (n - 1, rows[n - 1]);
      assert rows[..n][..n - 1] == rows[..n - 1];
      var front := Filter(Keyed(rows)[..n - 1], KeyedPasses(minLogins));
      var tail := if RowPasses(rows[n - 1], minLogins) then [(n - 1, rows[n - 1])] else [];
      var kept := if RowPasses(rows[n - 1], minLogins) then [rows[n - 1]] else [];
      assert Filter(k, KeyedPasses(minLogins)) == front + tail;
      assert Filter(rows[..n], PassesFn(minLogins)) == Filter(rows[..n - 1], PassesFn(minLogins)) + kept;
      assert Values(tail) == kept;
      ValuesAppend(front, tail);
    }
  }

  lemma ValuesAppend<T>(a: seq<(int, T)>, b: seq<(int, T)>)
    ensures Values(a + b) == Values(a) + Values(b)
  {
  }

  /** Only the keys differ: the values of the as-written result are the re-indexed rows. */
  lemma AsWrittenValues(rows: seq<ReportRow>, minLogins: int)
    ensures Values(MinLoginsAsWritten(rows, minLogins)) == MinLoginsFilter(rows, minLogins)
  {
    if minLogins != 0 {
      KeyedFilterValues(rows, minLogins, |rows|);
      assert Keyed(rows)[..|rows|] == Keyed(rows);
      assert rows[..|rows|] == rows;
    } else {
      assert Values(Keyed(rows)) == rows;
    }
  }

  /**
   * The rows kept by the min_logins filter, in their original order: `idx` lists the
   * positions of the rows at or above min_logins (all of them for 0), increasing; the
   * k-th kept row is the row at `idx[k]`, and as written it keeps its key `idx[k]`.
   */
  lemma MinLoginsKept(rows: seq<ReportRow>, minLogins: int) returns (idx: seq<int>)
    ensures var r := MinLoginsFilter(rows, minLogins);
      var w := MinLoginsAsWritten(rows, minLogins);
      && |idx| == |r| == |w|
      && (forall k :: 0 <= k < |idx| ==> 0 <= idx[k] < |rows| && r[k] == rows[idx[k]] && w[k] == (idx[k], rows[idx[k]]))
      && (forall k, l :: 0 <= k < l < |idx| ==> idx[k] < idx[l])
      && (forall i :: 0 <= i < |rows| ==> (minLogins == 0 || RowPasses(rows[i], minLogins) <==> i in idx))
  {
    var keyed := Keyed(rows);
    AsWrittenValues(rows, minLogins);
    if minLogins == 0 {
      idx := seq(|rows|, i requires 0 <= i < |rows| => i);
      assert forall i :: 0 <= i < |rows| ==> idx[i] == i;
      assert forall i :: 0 <= i < |rows| ==> i in idx by {
        forall i | 0 <= i < |rows| ensures i in idx {
          assert idx[i] == i;
        }
      }
    } else {
      idx := FilterPicks(keyed, KeyedPasses(minLogins));
      var w := MinLoginsAsWritten(rows, minLogins);
      var r := MinLoginsFilter(rows, minLogins);
      assert r == Values(w);
      forall k | 0 <= k < |idx| ensures w[k] == (idx[k], rows[idx[k]]) && r[k] == rows[idx[k]] {
        assert w[k] == keyed[idx[k]];
        assert r[k] == w[k].1;
      }
      forall i | 0 <= i < |rows| ensures RowPasses(rows[i], minLogins) <==> i in idx {
        assert KeyedPasses(minLogins)(keyed[i]) == RowPasses(rows[i], minLogins);
      }
    }
  }

  /**
   * Evidence of the discrepancy: totals 5, 17, 10 with min_logins 10 keep two rows,
   * under keys 1 and 2, so the reply's `data` is a JSON object and the page says
   * there is no data.
   */
  lemma MinLoginsHidesTable(a: ReportRow, b: ReportRow, c: ReportRow)
    requires a.totalLogins == 5 && b.totalLogins == 17 && c.totalLogins == 10
    ensures MinLoginsAsWritten([a, b, c], 10) == [(1, b), (2, c)]
    ensures !AdminShowsTable(MinLoginsAsWritten([a, b, c], 10))
  {
    var k := Keyed([a, b, c]);
    var p := KeyedPasses(10);
    assert k == [(0, a), (1, b), (2, c)];
    assert !p((0, a)) && p((1, b)) && p((2, c));
    assert k[..1] == [(0, a)] && k[..1][..0] == k[..0];
    assert Filter(k[..1], p) == [];
    assert k[..2][..1] == k[..1];
    assert Filter(k[..2], p) == [(1, b)];
    assert Filter(k, p) == [(1, b), (2, c)];
    var r := MinLoginsAsWritten([a, b, c], 10);
    assert r[0].0 != 0;
  }

  /**
   * The re-indexed filter keeps exactly the rows that reach min_logins (all rows when it
   * is 0), and the page shows the table exactly when some row is kept.
   */
  lemma MinLoginsFilterShows(rows: seq<ReportRow>, minLogins: int)
    ensures forall r :: r in MinLoginsFilter(rows, minLogins) <==> r in rows && (minLogins == 0 || RowPasses(r, minLogins))
    ensures multiset(MinLoginsFilter(rows, minLogins)) <= multiset(rows)
    ensures AdminShowsTable(Keyed(MinLoginsFilter(rows, minLogins))) <==>
      exists i :: 0 <= i < |rows| && (minLogins == 0 || RowPasses(rows[i], minLogins))
  {
    if minLogins != 0 {
      FilterSubMultiset(rows, PassesFn(minLogins));
    }
    var r := MinLoginsFilter(rows, minLogins);
    if exists i :: 0 <= i < |rows| && (minLogins == 0 || RowPasses(rows[i], minLogins)) {
      var i :| 0 <= i < |rows| && (minLogins == 0 || RowPasses(rows[i], minLogins));
      assert rows[i] in r;
    }
    if r != [] {
      assert r[0] in rows;
    }
  }

  /** Whenever the corrected filter keeps rows the as-written one keeps some too: the keys alone hide the table. */
  lemma MinLoginsSameRows(rows: seq<ReportRow>, minLogins: int)
    ensures MinLoginsAsWritten(rows, minLogins) == [] <==> MinLoginsFilter(rows, minLogins) == []
  {
    AsWrittenValues(rows, minLogins);
  }

  // ---------------------------------------------------------------- get_corporate_data

  /** The by-reference foreach of get_corporate_data for one row. */
  function Enhanced(r: ReportRow, subRowsOf: int -> seq<SubSql>, humanDiff: string -> string): ReportRow
  {
    r.(subAccounts := Some(SubAccountsOf(subRowsOf(r.parentId), humanDiff)),
       formattedLastLogin := Some(FormattedLastLogin(r.lastLoginDate, humanDiff)))
  }

  /** What get_corporate_data returns for the filters. */
  function CorporateData(filters: Filters, query: Filters -> seq<ReportRow>, subRowsOf: int -> seq<SubSql>,
                         humanDiff: string -> string): (data: seq<ReportRow>)
    ensures |data| == |MinLoginsFilter(query(filters), filters.minLogins)|
  {
    var kept := MinLoginsFilter(query(filters), filters.minLogins);
    seq(|kept|, i requires 0 <= i < |kept| => Enhanced(kept[i], subRowsOf, humanDiff))
  }

  /** The enhancement loop: every row gains its sub-accounts and its human-readable last login, in place. */
  method EnhanceRows(rows: array<ReportRow>, subRowsOf: int -> seq<SubSql>, humanDiff: string -> string)
    modifies rows
    ensures forall i :: 0 <= i < rows.Length ==> rows[i] == Enhanced(old(rows[i]), subRowsOf, humanDiff)
  {
    var k := 0;
    while k < rows.Length
      invariant 0 <= k <= rows.Length
      invariant forall i :: 0 <= i < k ==> rows[i] == Enhanced(old(rows[i]), subRowsOf, humanDiff)
      invariant forall i :: k <= i < rows.Length ==> rows[i] == old(rows[i])
    {
      var row := rows[k];
      var subs := GetSubAccounts(subRowsOf(row.parentId), humanDiff);
      rows[k] := row.(subAccounts := Some(subs),
                      formattedLastLogin := Some(FormattedLastLogin(row.lastLoginDate, humanDiff)));
      k := k + 1;
    }
  }

  /** get_corporate_data: the query's rows, the min_logins post-filter, then the enhancement loop. */
  method GetCorporateData(filters: Filters, query: Filters -> seq<ReportRow>, subRowsOf: int -> seq<SubSql>,
                          humanDiff: string -> string)
    returns (data: seq<ReportRow>)
    ensures data == CorporateData(filters, query, subRowsOf, humanDiff)
  {
    var results := query(filters);
    if filters.minLogins != 0 {
      results := Filter(results, PassesFn(filters.minLogins));
    }
    if results == [] {
      return [];
    }
    var rows := new ReportRow[|results|](i requires 0 <= i < |results| => results[i]);
    EnhanceRows(rows, subRowsOf, humanDiff);
    data := rows[..];
  }

  /**
   * Every returned row is a kept row with its sub-accounts attached and 'Never' exactly
   * when its last-login date is empty.
   */
  lemma CorporateDataRows(filters: Filters, query: Filters -> seq<ReportRow>, subRowsOf: int -> seq<SubSql>,
                          humanDiff: string -> string)
    ensures var data := CorporateData(filters, query, subRowsOf, humanDiff);
      var kept := MinLoginsFilter(query(filters), filters.minLogins);
      forall i :: 0 <= i < |data| ==>
        && data[i].(subAccounts := None, formattedLastLogin := None) == kept[i].(subAccounts := None, formattedLastLogin := None)
        && data[i].subAccounts == Some(SubAccountsOf(subRowsOf(kept[i].parentId), humanDiff))
        && data[i].formattedLastLogin.Some?
        && (data[i].formattedLastLogin.value == "Never" <==> PhpEmpty(kept[i].lastLoginDate))
  {
  }

  // ---------------------------------------------------------------- the summary

  /** average_logins_per_account: 0 without rows, else the total over the count (rounding not modelled). */
  datatype Average = NoAccounts | Mean(totalLogins: int, accounts: int)

  datatype Summary = Summary(totalCorporateAccounts: int, totalSubAccounts: int, totalLogins: int, average: Average)

  function RowSubCount(r: ReportRow): int { r.subAccountCount }
  function RowLogins(r: ReportRow): int { r.totalLogins }

  /** The summary of ajax_get_report_data. */
  function SummaryOf(data: seq<ReportRow>): Summary
  {
    Summary(|data|, SumOf(data, RowSubCount), SumOf(data, RowLogins),
            if |data| > 0 then Mean(SumOf(data, RowLogins), |data|) else NoAccounts)
  }

  /**
   * With a min_logins filter every account reaches it, so the logins total is at least
   * min_logins per account; the average is a mean exactly when there are rows.
   */
  lemma SummaryRespectsMinLogins(filters: Filters, query: Filters -> seq<ReportRow>, subRowsOf: int -> seq<SubSql>,
                                 humanDiff: string -> string)
    ensures var s := SummaryOf(CorporateData(filters, query, subRowsOf, humanDiff));
      && (s.average.NoAccounts? <==> s.totalCorporateAccounts == 0)
      && (filters.minLogins != 0 ==> s.totalLogins >= filters.minLogins * s.totalCorporateAccounts)
  {
    var data := CorporateData(filters, query, subRowsOf, humanDiff);
    var kept := MinLoginsFilter(query(filters), filters.minLogins);
    if filters.minLogins != 0 {
      forall i | 0 <= i < |data| ensures RowLogins(data[i]) >= filters.minLogins {
        assert kept[i] in kept;
      }
      SumOfAtLeast(data, RowLogins, filters.minLogins);
    }
  }

  /** ajax_get_report_data: the POST filters, the data, and its summary. */
  method AjaxGetReportData(req: Request<seq<string>>, sanitize: string -> string, query: Filters -> seq<ReportRow>,
                           subRowsOf: int -> seq<SubSql>, humanDiff: string -> string)
    returns (data: seq<ReportRow>, summary: Summary)
    ensures data == CorporateData(PostFilters(req, sanitize), query, subRowsOf, humanDiff)
    ensures summary == SummaryOf(data)
  {
    var filters := PostFilters(req, sanitize);
    data := GetCorporateData(filters, query, subRowsOf, humanDiff);
    summary := SummaryOf(data);
  }

  // ---------------------------------------------------------------- CSV export

  /** The UTF-8 byte order mark written before the header. */
  const Bom: seq<bv8> := [0xEF, 0xBB, 0xBF]

  const CsvHeader: seq<string> := [
    "Parent ID", "Parent Username", "Parent Email", "Company Name", "Location", "Membership ID",
    "Sub-Account Count", "Total Logins", "Last Login Date", "Last Login (Human)", "Signup Date",
    "Transaction Status", "Subscription Status"]

  /** One data record, in header order, with 'N/A' and 'Never' for null values. */
  function CsvRow(r: ReportRow): (fields: seq<string>)
    ensures |fields| == |CsvHeader|
    ensures fields[1] == r.parentUsername && fields[2] == r.parentEmail
    ensures fields[9] == r.formattedLastLogin.GetOr("")
    ensures fields[10] == r.parentSignupDate && fields[11] == r.transactionStatus
  {
    [DecimalString(r.parentId), r.parentUsername, r.parentEmail, r.companyName.GetOr("N/A"),
     r.location.GetOr("N/A"), DecimalString(r.membershipId), DecimalString(r.subAccountCount),
     DecimalString(r.totalLogins), r.lastLoginDate.GetOr("Never"), r.formattedLastLogin.GetOr(""),
     r.parentSignupDate, r.transactionStatus, r.subscriptionStatus.GetOr("N/A")]
  }

  /** The numeric columns sit under their headers and read back as the row's numbers. */
  lemma CsvRowNumbers(r: ReportRow)
    ensures var f := CsvRow(r);
      && CsvHeader[0] == "Parent ID" && IntVal(f[0]) == r.parentId
      && CsvHeader[5] == "Membership ID" && IntVal(f[5]) == r.membershipId
      && CsvHeader[6] == "Sub-Account Count" && IntVal(f[6]) == r.subAccountCount
      && CsvHeader[7] == "Total Logins" && IntVal(f[7]) == r.totalLogins
  {
    var f := CsvRow(r);
    assert f[0] == DecimalString(r.parentId) && f[5] == DecimalString(r.membershipId);
    assert f[6] == DecimalString(r.subAccountCount) && f[7] == DecimalString(r.totalLogins);
    ParseDecimalString(r.parentId);
    ParseDecimalString(r.membershipId);
    ParseDecimalString(r.subAccountCount);
    ParseDecimalString(r.totalLogins);
  }

  /** The nullable columns hold the value when there is one and the placeholder otherwise. */
  lemma CsvRowPlaceholders(r: ReportRow)
    ensures var f := CsvRow(r);
      && CsvHeader[3] == "Company Name" && (f[3] == "N/A" <== r.companyName.None?)
      && (r.companyName.Some? ==> f[3] == r.companyName.value)
      && CsvHeader[4] == "Location" && (r.location.None? ==> f[4] == "N/A")
      && (r.location.Some? ==> f[4] == r.location.value)
      && CsvHeader[8] == "Last Login Date" && (r.lastLoginDate.None? ==> f[8] == "Never")
      && (r.lastLoginDate.Some? ==> f[8] == r.lastLoginDate.value)
      && CsvHeader[12] == "Subscription Status" && (r.subscriptionStatus.None? ==> f[12] == "N/A")
      && (r.subscriptionStatus.Some? ==> f[12] == r.subscriptionStatus.value)
  {
  }

  /** The text columns sit under their headers and carry the row's values as they are. */
  lemma CsvRowText(r: ReportRow)
    ensures var f := CsvRow(r);
      && CsvHeader[1] == "Parent Username" && f[1] == r.parentUsername
      && CsvHeader[2] == "Parent Email" && f[2] == r.parentEmail
      && CsvHeader[9] == "Last Login (Human)" && (r.formattedLastLogin.Some? ==> f[9] == r.formattedLastLogin.value)
      && (r.formattedLastLogin.None? ==> f[9] == "")
      && CsvHeader[10] == "Signup Date" && f[10] == r.parentSignupDate
      && CsvHeader[11] == "Transaction Status" && f[11] == r.transactionStatus
  {
  }

  /** One record per row, in order. */
  function CsvBody(data: seq<ReportRow>): (body: seq<seq<string>>)
    ensures |body| == |data| && forall i :: 0 <= i < |data| ==> body[i] == CsvRow(data[i])
  {
    seq(|data|, i requires 0 <= i < |data| => CsvRow(data[i]))
  }

  /** The records of the export: the header, then one record per row in order. */
  function CsvRecords(data: seq<ReportRow>): (records: seq<seq<string>>)
    ensures |records| == |data| + 1 && records[0] == CsvHeader
    ensures forall i :: 0 <= i < |data| ==> records[i + 1] == CsvRow(data[i])
  {
    var body := CsvBody(data);
    assert forall i :: 0 <= i < |data| ==> ([CsvHeader] + body)[i + 1] == body[i];
    [CsvHeader] + body
  }

  /** The fputcsv loop: the header, then one record per row. */
  method WriteRecords(data: seq<ReportRow>) returns (records: seq<seq<string>>)
    ensures records == CsvRecords(data)
  {
    var body: seq<seq<string>> := [];
    var k := 0;
    while k < |data|
      invariant 0 <= k <= |data|
      invariant |body| == k && forall i :: 0 <= i < k ==> body[i] == CsvRow(data[i])
    {
      body := body + [CsvRow(data[k])];
      k := k + 1;
    }
    assert body == CsvBody(data);
    records := [CsvHeader] + body;
  }

  /** ajax_export_csv: the GET filters, the data, the byte order mark and the records. */
  method AjaxExportCsv(req: Request<string>, sanitize: string -> string, query: Filters -> seq<ReportRow>,
                       subRowsOf: int -> seq<SubSql>, humanDiff: string -> string)
    returns (bom: seq<bv8>, records: seq<seq<string>>)
    ensures bom == Bom
    ensures records == CsvRecords(CorporateData(GetFilters(req, sanitize), query, subRowsOf, humanDiff))
  {
    var data := GetCorporateData(GetFilters(req, sanitize), query, subRowsOf, humanDiff);
    bom := Bom;
    records := WriteRecords(data);
  }

  /** The export lists the same rows as the table for the same request values. */
  lemma ExportMatchesTable(search: Option<string>, location: Option<string>, ids: seq<int>,
                           minLogins: Option<string>, orderBy: Option<string>, order: Option<string>,
                           sanitize: string -> string, query: Filters -> seq<ReportRow>,
                           subRowsOf: int -> seq<SubSql>, humanDiff: string -> string)
    requires ids != []
    ensures var post := Request(search, location, Some(IdStrings(ids)), minLogins, orderBy, order);
      var get := Request(search, location, Some(Join(IdStrings(ids), ",")), minLogins, orderBy, order);
      var data := CorporateData(PostFilters(post, sanitize), query, subRowsOf, humanDiff);
      CsvRecords(CorporateData(GetFilters(get, sanitize), query, subRowsOf, humanDiff)) == CsvRecords(data)
  {
    ExportFiltersMatchTable(search, location, ids, minLogins, orderBy, order, sanitize);
  }
}
