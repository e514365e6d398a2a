/**
 * The client-side filter and sort engine of the member usage dashboard
 * (recoveryfit-member-dashboard/assets/js/rf-member-dashboard.js): members as the page
 * receives them in RF_MEMBER_DATA, applyFilters (search, membership and date
 * predicates combined with AND, then a sort), the membership options of the filter,
 * and the HTML escaping used when rendering. The view state that the event handlers
 * change is the class MemberView.
 *
 * Date.now() is the parameter `nowMs`; `new Date(s).getTime()` is the parameter
 * `dateMs`; a missing or null string property is "".
 */
module RfMemberDashboard {
  import opened Wrappers
  import opened Seqs
  import opened Text
  import opened Sorting
  import opened WpValues

  // ---------------------------------------------------------------- data as the page receives it

  /** A membership of a member: its product_title, None when null. */
  datatype JsSubscribed = JsSubscribed(productTitle: Option<string>)

  /** A member record; `memberships` is None when it is missing or null. */
  datatype JsMember = JsMember(
    displayName: string,
    email: string,
    username: string,
    loginCount: int,
    lastLoginTs: Option<int>,
    registeredAt: string,
    memberships: Option<seq<JsSubscribed>>)

  /** One day in milliseconds. */
  const DayMillis := 24 * 60 * 60 * 1000

  // ---------------------------------------------------------------- the predicates of applyFilters

  /** The search predicate: no term, or the term occurs in the lowered, space-joined name, email and username. */
  predicate MatchesSearch(m: JsMember, searchTerm: string)
  {
    searchTerm == "" || Contains(Lower(Join([m.displayName, m.email, m.username], " ")), searchTerm)
  }

  /** The titles of a member's memberships, with a null title as "". */
  function Titles(m: JsMember): (r: seq<string>)
    ensures |r| == |m.memberships.GetOr([])|
    ensures forall i :: 0 <= i < |r| ==> r[i] == m.memberships.GetOr([])[i].productTitle.GetOr("")
  {
    var ms := m.memberships.GetOr([]);
    seq(|ms|, i requires 0 <= i < |ms| => ms[i].productTitle.GetOr(""))
  }

  /** The membership predicate: 'all', or one of the member's titles equals the filter. */
  predicate MatchesMembership(m: JsMember, membershipFilter: string)
  {
    membershipFilter == "all" || membershipFilter in Titles(m)
  }

  /**
   * The date predicate: 'all'; otherwise a non-zero timestamp that is not before
   * now - days*86400000 ms. When parseInt cannot read the range the threshold is NaN,
   * no comparison with it holds, and only the timestamp must be set.
   */
  predicate MatchesDate(m: JsMember, dateRange: string, nowMs: int)
  {
    if dateRange == "all" then true
    else match LeadingInt(dateRange)
      case None => Present(m.lastLoginTs)
      case Some(days) => Present(m.lastLoginTs) && !(m.lastLoginTs.value * 1000 < nowMs - days * DayMillis)
  }

  predicate Keeps(m: JsMember, searchTerm: string, membershipFilter: string, dateRange: string, nowMs: int)
  {
    MatchesSearch(m, searchTerm) && MatchesMembership(m, membershipFilter) && MatchesDate(m, dateRange, nowMs)
  }

  function KeepFn(searchTerm: string, membershipFilter: string, dateRange: string, nowMs: int): JsMember -> bool
  {
    (m: JsMember) => Keeps(m, searchTerm, membershipFilter, dateRange, nowMs)
  }

  // ---------------------------------------------------------------- the sort of applyFilters

  /** Comparator of 'name': display names in order. */
  predicate NameOrder(a: JsMember, b: JsMember)
  {
    LexLe(a.displayName, b.displayName)
  }

  function TsOrZero(m: JsMember): int
  {
    if m.lastLoginTs.Some? then m.lastLoginTs.value else 0
  }

  /** Comparator of 'last_login': (b.last_login_ts || 0) - (a.last_login_ts || 0) <= 0. */
  predicate LatestFirst(a: JsMember, b: JsMember)
  {
    TsOrZero(b) - TsOrZero(a) <= 0
  }

  /** Comparator of 'registered': later registration dates first. */
  function NewestFirst(dateMs: string -> int): (JsMember, JsMember) -> bool
  {
    (a: JsMember, b: JsMember) => dateMs(b.registeredAt) - dateMs(a.registeredAt) <= 0
  }

  /** Comparator of 'logins' and of every other mode: more logins first. */
  predicate LoginsDesc(a: JsMember, b: JsMember)
  {
    b.loginCount - a.loginCount <= 0
  }

  function OrderFor(sortBy: string, dateMs: string -> int): (JsMember, JsMember) -> bool
  {
    if sortBy == "name" then NameOrder
    else if sortBy == "last_login" then LatestFirst
    else if sortBy == "registered" then NewestFirst(dateMs)
    else LoginsDesc
  }

  lemma OrderForConsistent(sortBy: string, dateMs: string -> int)
    ensures TotalPreorder(OrderFor(sortBy, dateMs))
  {
    forall a: JsMember, b: JsMember ensures NameOrder(a, b) || NameOrder(b, a) {
      LexLeTotal(a.displayName, b.displayName);
    }
    forall a: JsMember, b: JsMember, c: JsMember | NameOrder(a, b) && NameOrder(b, c)
      ensures NameOrder(a, c)
    {
      LexLeTransitive(a.displayName, b.displayName, c.displayName);
    }
  }

  // ---------------------------------------------------------------- applyFilters

  /** What applyFilters returns: the members that pass all three predicates, sorted. */
  function Visible(members: seq<JsMember>, search: string, membershipFilter: string, dateRange: string,
                   sortBy: string, nowMs: int, dateMs: string -> int): seq<JsMember>
  {
    StableSort(Filter(members, KeepFn(JsTrim(search), membershipFilter, dateRange, nowMs)), OrderFor(sortBy, dateMs))
  }

  /** applyFilters: filter with the trimmed search term, then sort the new array in place. */
  method ApplyFilters(members: seq<JsMember>, search: string, membershipFilter: string, dateRange: string,
                      sortBy: string, nowMs: int, dateMs: string -> int)
    returns (filtered: seq<JsMember>)
    ensures filtered == Visible(members, search, membershipFilter, dateRange, sortBy, nowMs, dateMs)
  {
    var searchTerm := JsTrim(search);
    filtered := Filter(members, KeepFn(searchTerm, membershipFilter, dateRange, nowMs));
    filtered := SortCopy(filtered, OrderFor(sortBy, dateMs));
  }

  /**
   * The visible members are a sub-multiset of the members; a member is visible exactly
   * when it passes the three predicates; and they are ordered by the sort mode.
   */
  lemma VisibleExactly(members: seq<JsMember>, search: string, membershipFilter: string, dateRange: string,
                       sortBy: string, nowMs: int, dateMs: string -> int)
    ensures var r := Visible(members, search, membershipFilter, dateRange, sortBy, nowMs, dateMs);
      && multiset(r) <= multiset(members)
      && (forall m :: m in r <==> m in members && Keeps(m, JsTrim(search), membershipFilter, dateRange, nowMs))
      && SortedBy(r, OrderFor(sortBy, dateMs))
  {
    var kept := Filter(members, KeepFn(JsTrim(search), membershipFilter, dateRange, nowMs));
    FilterSubMultiset(members, KeepFn(JsTrim(search), membershipFilter, dateRange, nowMs));
    StableSortPermutation(kept, OrderFor(sortBy, dateMs));
    OrderForConsistent(sortBy, dateMs);
    StableSortSorted(kept, OrderFor(sortBy, dateMs));
    var r := StableSort(kept, OrderFor(sortBy, dateMs));
    forall m ensures m in r <==> m in kept {
      assert m in r <==> m in multiset(r);
      assert m in kept <==> m in multiset(kept);
    }
  }

  /** With the initial filters every member is shown, most logins first. */
  lemma VisibleInitial(members: seq<JsMember>, nowMs: int, dateMs: string -> int)
    ensures var r := Visible(members, "", "all", "all", "logins", nowMs, dateMs);
      && multiset(r) == multiset(members)
      && forall i, j :: 0 <= i < j < |r| ==> r[i].loginCount >= r[j].loginCount
  {
    var keep := KeepFn(JsTrim(""), "all", "all", nowMs);
    assert JsTrim("") == "";
    forall i | 0 <= i < |members| ensures keep(members[i]) {
      assert Keeps(members[i], "", "all", "all", nowMs);
    }
    FilterAll(members, keep);
    var le := OrderFor("logins", dateMs);
    assert le == LoginsDesc;
    StableSortPermutation(members, le);
    OrderForConsistent("logins", dateMs);
    StableSortSorted(members, le);
  }

  /** A wider date range keeps every member a narrower one keeps. */
  lemma MatchesDateWider(m: JsMember, narrow: nat, wide: nat, nowMs: int)
    requires narrow <= wide && MatchesDate(m, DecimalString(narrow), nowMs)
    ensures MatchesDate(m, DecimalString(wide), nowMs)
  {
    var sn, sw := DecimalString(narrow), DecimalString(wide);
    ParseDecimalString(narrow);
    ParseDecimalString(wide);
    assert sn[0] != 'a' && sw[0] != 'a';
    MatchesDateDays(m, sn, narrow, nowMs);
    MatchesDateDays(m, sw, wide, nowMs);
    assert narrow * DayMillis <= wide * DayMillis;
  }

  lemma MatchesDateDays(m: JsMember, dateRange: string, days: int, nowMs: int)
    requires dateRange != "all" && LeadingInt(dateRange) == Some(days)
    ensures MatchesDate(m, dateRange, nowMs) <==>
      Present(m.lastLoginTs) && m.lastLoginTs.value * 1000 >= nowMs - days * DayMillis
  {
  }

  // ---------------------------------------------------------------- getMembershipOptions

  function TruthyTitle(s: JsSubscribed): Option<string>
  {
    if s.productTitle.Some? && s.productTitle.value != "" then s.productTitle else None
  }

  /** The non-empty titles of a member's memberships, in order. */
  function MemberTitles(m: JsMember): seq<string>
  {
    FilterMap(m.memberships.GetOr([]), TruthyTitle)
  }

  /** The non-empty titles of all members, member by member, in order. */
  function AllTitles(members: seq<JsMember>): seq<string>
  {
    if members == [] then [] else AllTitles(members[..|members| - 1]) + MemberTitles(members[|members| - 1])
  }

  /** One turn of the inner forEach: a non-empty title joins the set unless it is there. */
  method AddTitle(ghost before: seq<string>, titles: seq<string>, sub: JsSubscribed) returns (out: seq<string>)
    requires titles == Dedup(before)
    ensures out == Dedup(before + FilterMap([sub], TruthyTitle))
  {
    var title := sub.productTitle;
    assert [sub][..0] == [];
    if title.Some? && title.value != "" {
      assert FilterMap([sub], TruthyTitle) == [title.value];
      DedupAppend(before, title.value);
      out := if title.value in titles then titles else titles + [title.value];
    } else {
      assert FilterMap([sub], TruthyTitle) == [];
      assert before + [] == before;
      out := titles;
    }
  }

  /** The titles seen after one more membership of the inner forEach. */
  lemma TitlesStep(seen: seq<string>, items: seq<JsSubscribed>, k: nat)
    requires k < |items|
    ensures seen + FilterMap(items[..k + 1], TruthyTitle) ==
      (seen + FilterMap(items[..k], TruthyTitle)) + FilterMap([items[k]], TruthyTitle)
  {
    assert items[..k + 1] == items[..k] + [items[k]];
    FilterMapAppend(items[..k], [items[k]], TruthyTitle);
  }

  /** The inner forEach: add one member's non-empty titles to the set. */
  method AddMemberTitles(ghost seen: seq<string>, titles: seq<string>, m: JsMember) returns (out: seq<string>)
    requires titles == Dedup(seen)
    ensures out == Dedup(seen + MemberTitles(m))
  {
    var items := m.memberships.GetOr([]);
    out := titles;
    var k := 0;
    assert seen + FilterMap(items[..0], TruthyTitle) == seen;
    while k < |items|
      invariant 0 <= k <= |items|
      invariant out == Dedup(seen + FilterMap(items[..k], TruthyTitle))
    {
      TitlesStep(seen, items, k);
      out := AddTitle(seen + FilterMap(items[..k], TruthyTitle), out, items[k]);
      k := k + 1;
    }
    assert items[..k] == items;
  }

  /** The outer forEach over the members: the set of titles in insertion order. */
  method CollectTitles(members: seq<JsMember>) returns (titles: seq<string>)
    ensures titles == Dedup(AllTitles(members))
  {
    titles := [];
    var k := 0;
    while k < |members|
      invariant 0 <= k <= |members|
      invariant titles == Dedup(AllTitles(members[..k]))
    {
      assert members[..k + 1][..k] == members[..k];
      titles := AddMemberTitles(AllTitles(members[..k]), titles, members[k]);
      k := k + 1;
    }
    assert members[..k] == members;
  }

  /** getMembershipOptions: the distinct non-empty titles, sorted. */
  method GetMembershipOptions(members: seq<JsMember>) returns (options: seq<string>)
    ensures options == StableSort(Dedup(AllTitles(members)), LexLe)
  {
    var titles := CollectTitles(members);
    options := SortCopy(titles, LexLe);
  }

  lemma {:induction false} AllTitlesHas(members: seq<JsMember>, x: string)
    ensures x in AllTitles(members) <==> exists i :: 0 <= i < |members| && x in MemberTitles(members[i])
  {
    if members != [] {
      var n := |members| - 1;
      AllTitlesHas(members[..n], x);
      if exists i :: 0 <= i < |members| && x in MemberTitles(members[i]) {
        var i :| 0 <= i < |members| && x in MemberTitles(members[i]);
        if i < n {
          assert members[..n][i] == members[i];
        }
      }
      if exists i :: 0 <= i < n && x in MemberTitles(members[..n][i]) {
        var i :| 0 <= i < n && x in MemberTitles(members[..n][i]);
        assert members[..n][i] == members[i];
      }
    }
  }

  lemma MemberTitlesHas(m: JsMember, x: string)
    ensures x in MemberTitles(m) <==> x != "" && exists j :: 0 <= j < |m.memberships.GetOr([])| &&
                                                  m.memberships.GetOr([])[j].productTitle == Some(x)
  {
    var items := m.memberships.GetOr([]);
    var idx := FilterMapPicks(items, TruthyTitle);
    if x in MemberTitles(m) {
      var k :| 0 <= k < |idx| && MemberTitles(m)[k] == x;
      assert TruthyTitle(items[idx[k]]) == Some(x);
    }
    if x != "" && exists j :: 0 <= j < |items| && items[j].productTitle == Some(x) {
      var j :| 0 <= j < |items| && items[j].productTitle == Some(x);
      assert j in idx;
      var k :| 0 <= k < |idx| && idx[k] == j;
      assert MemberTitles(m)[k] == x;
    }
  }

  /**
   * The options list each non-empty title of any member's memberships exactly once,
   * nothing else, in order.
   */
  lemma MembershipOptionsExactly(members: seq<JsMember>)
    ensures var opts := StableSort(Dedup(AllTitles(members)), LexLe);
      && Distinct(opts)
      && SortedBy(opts, LexLe)
      && forall x :: x in opts <==>
           x != "" && exists i, j :: 0 <= i < |members| && 0 <= j < |members[i].memberships.GetOr([])| &&
                                     members[i].memberships.GetOr([])[j].productTitle == Some(x)
  {
    var titles := Dedup(AllTitles(members));
    var opts := StableSort(titles, LexLe);
    StableSortPermutation(titles, LexLe);
    DistinctPermutation(titles, opts);
    forall a, b ensures LexLe(a, b) || LexLe(b, a) { LexLeTotal(a, b); }
    forall a, b, c | LexLe(a, b) && LexLe(b, c) ensures LexLe(a, c) { LexLeTransitive(a, b, c); }
    StableSortSorted(titles, LexLe);
    forall x ensures x in opts <==>
      x != "" && exists i, j :: 0 <= i < |members| && 0 <= j < |members[i].memberships.GetOr([])| &&
                                members[i].memberships.GetOr([])[j].productTitle == Some(x)
    {
      assert x in opts <==> x in multiset(opts);
      assert x in titles <==> x in multiset(titles);
      AllTitlesHas(members, x);
      forall i | 0 <= i < |members| { MemberTitlesHas(members[i], x); }
    }
  }

  // ---------------------------------------------------------------- escapeHtml, escapeAttr

  /** String.prototype.replace with a global one-character pattern: every `c` becomes `rep`. */
  function ReplaceAll(s: string, c: char, rep: string): string
  {
    if s == [] then []
    else ReplaceAll(s[..|s| - 1], c, rep) + (if s[|s| - 1] == c then rep else [s[|s| - 1]])
  }

  lemma {:induction false} ReplaceAllConcat(a: string, b: string, c: char, rep: string)
    ensures ReplaceAll(a + b, c, rep) == ReplaceAll(a, c, rep) + ReplaceAll(b, c, rep)
  {
    if b == [] {
      assert a + b == a;
    } else {
      var n := |b| - 1;
      var last := if b[n] == c then rep else [b[n]];
      SnocBack(a, b, ReplaceAll(a, c, rep), ReplaceAll(b[..n], c, rep), last);
      ReplaceAllConcat(a, b[..n], c, rep);
    }
  }

  lemma {:induction false} ReplaceAllAbsent(s: string, c: char, rep: string)
    requires c !in s
    ensures ReplaceAll(s, c, rep) == s
  {
    if s != [] {
      var n := |s| - 1;
      assert s[n] != c;
      ReplaceAllAbsent(s[..n], c, rep);
      assert s == s[..n] + [s[n]];
    }
  }

  lemma ReplaceAllSingle(x: char, c: char, rep: string)
    ensures ReplaceAll([x], c, rep) == if x == c then rep else [x]
  {
    assert [x][..0] == [];
  }

  function EncodeChar(x: char): (r: string)
  {
    if x == '&' then "&amp;"
    else if x == '<' then "&lt;"
    else if x == '>' then "&gt;"
    else if x == '"' then "&quot;"
    else if x == '\'' then "&#039;"
    else [x]
  }

  function Encode(s: string): string
  {
    if s == [] then [] else EncodeChar(s[0]) + Encode(s[1..])
  }

  function EscapeText(s: string): string
  {
    var amp := ReplaceAll(s, '&', "&amp;");
    var lt := ReplaceAll(amp, '<', "&lt;");
    var gt := ReplaceAll(lt, '>', "&gt;");
    var quot := ReplaceAll(gt, '"', "&quot;");
    ReplaceAll(quot, '\'', "&#039;")
  }

  lemma EscapeConcat(a: string, b: string)
    ensures EscapeText(a + b) == EscapeText(a) + EscapeText(b)
  {
    var amp := ReplaceAll(a, '&', "&amp;");
    var amp' := ReplaceAll(b, '&', "&amp;");
    ReplaceAllConcat(a, b, '&', "&amp;");
    var lt := ReplaceAll(amp, '<', "&lt;");
    var lt' := ReplaceAll(amp', '<', "&lt;");
    ReplaceAllConcat(amp, amp', '<', "&lt;");
    var gt := ReplaceAll(lt, '>', "&gt;");
    var gt' := ReplaceAll(lt', '>', "&gt;");
    ReplaceAllConcat(lt, lt', '>', "&gt;");
    var quot := ReplaceAll(gt, '"', "&quot;");
    var quot' := ReplaceAll(gt', '"', "&quot;");
    ReplaceAllConcat(gt, gt', '"', "&quot;");
    ReplaceAllConcat(quot, quot', '\'', "&#039;");
  }

  /** The passes after the one that produced entity `e` leave it alone. */
  lemma EscapeRest(e: string)
    requires '<' !in e && '>' !in e && '"' !in e && '\'' !in e
    ensures ReplaceAll(e, '<', "&lt;") == e
    ensures ReplaceAll(e, '>', "&gt;") == e
    ensures ReplaceAll(e, '"', "&quot;") == e
    ensures ReplaceAll(e, '\'', "&#039;") == e
  {
    ReplaceAllAbsent(e, '<', "&lt;");
    ReplaceAllAbsent(e, '>', "&gt;");
    ReplaceAllAbsent(e, '"', "&quot;");
    ReplaceAllAbsent(e, '\'', "&#039;");
  }

  /** The five passes over a one-character string give its entity. */
  lemma EscapeChar(x: char)
    ensures EscapeText([x]) == EncodeChar(x)
  {
    if x == '&' {
      EscapeAmp(x);
    } else if x == '<' {
      EscapeLt(x);
    } else if x == '>' {
      EscapeGt(x);
    } else if x == '"' {
      EscapeQuot(x);
    } else if x == '\'' {
      EscapeApos(x);
    } else {
      EscapePlain(x);
    }
  }

  lemma EscapeAmp(x: char)
    requires x == '&'
    ensures EscapeText([x]) == EncodeChar(x)
  {
    ReplaceAllSingle(x, '&', "&amp;");
    EscapeRest("&amp;");
  }

  lemma EscapeLt(x: char)
    requires x == '<'
    ensures EscapeText([x]) == EncodeChar(x)
  {
    ReplaceAllSingle(x, '&', "&amp;");
    ReplaceAllSingle(x, '<', "&lt;");
    EscapeRest("&lt;");
  }

  lemma EscapeGt(x: char)
    requires x == '>'
    ensures EscapeText([x]) == EncodeChar(x)
  {
    ReplaceAllSingle(x, '&', "&amp;");
    ReplaceAllSingle(x, '<', "&lt;");
    ReplaceAllSingle(x, '>', "&gt;");
    EscapeRest("&gt;");
  }

  lemma EscapeQuot(x: char)
    requires x == '"'
    ensures EscapeText([x]) == EncodeChar(x)
  {
    ReplaceAllSingle(x, '&', "&amp;");
    ReplaceAllSingle(x, '<', "&lt;");
    ReplaceAllSingle(x, '>', "&gt;");
    ReplaceAllSingle(x, '"', "&quot;");
    EscapeRest("&quot;");
  }

  lemma EscapeApos(x: char)
    requires x == '\''
    ensures EscapeText([x]) == EncodeChar(x)
  {
    ReplaceAllSingle(x, '&', "&amp;");
    ReplaceAllSingle(x, '<', "&lt;");
    ReplaceAllSingle(x, '>', "&gt;");
    ReplaceAllSingle(x, '"', "&quot;");
    ReplaceAllSingle(x, '\'', "&#039;");
  }

  lemma EscapePlain(x: char)
    requires x != '&' && x != '<' && x != '>' && x != '"' && x != '\''
    ensures EscapeText([x]) == [x]
  {
    ReplaceAllSingle(x, '&', "&amp;");
    ReplaceAllSingle(x, '<', "&lt;");
    ReplaceAllSingle(x, '>', "&gt;");
    ReplaceAllSingle(x, '"', "&quot;");
    ReplaceAllSingle(x, '\'', "&#039;");
  }

  lemma {:induction false} EscapeIsEncode(s: string)
    ensures EscapeText(s) == Encode(s)
  {
    if s == [] {
      assert EscapeText(s) == [];
    } else {
      assert s == [s[0]] + s[1..];
      EscapeConcat([s[0]], s[1..]);
      EscapeChar(s[0]);
      EscapeIsEncode(s[1..]);
    }
  }

  function Decode(t: string): string
    decreases |t|
  {
    if t == [] then []
    else if t[0] != '&' then [t[0]] + Decode(t[1..])
    else if "&amp;" <= t then "&" + Decode(t[5..])
    else if "&lt;" <= t then "<" + Decode(t[4..])
    else if "&gt;" <= t then ">" + Decode(t[4..])
    else if "&quot;" <= t then "\"" + Decode(t[6..])
    else if "&#039;" <= t then "'" + Decode(t[6..])
    else [t[0]] + Decode(t[1..])
  }

  lemma DecodeStep(x: char, rest: string)
    ensures Decode(EncodeChar(x) + rest) == [x] + Decode(rest)
  {
    var t := EncodeChar(x) + rest;
    if x == '&' {
      assert "&amp;" <= t && t[5..] == rest;
    } else if x == '<' {
      assert t[1] == 'l' && t[..4] == "&lt;" && t[4..] == rest;
    } else if x == '>' {
      assert t[1] == 'g' && t[..4] == "&gt;" && t[4..] == rest;
    } else if x == '"' {
      assert t[1] == 'q' && t[..6] == "&quot;" && t[6..] == rest;
    } else if x == '\'' {
      assert t[1] == '#' && t[..6] == "&#039;" && t[6..] == rest;
    } else {
      assert t[0] == x && t[1..] == rest;
    }
  }

  lemma {:induction false} DecodeEncode(s: string)
    ensures Decode(Encode(s)) == s
  {
    if s != [] {
      DecodeStep(s[0], Encode(s[1..]));
      DecodeEncode(s[1..]);
      assert s == [s[0]] + s[1..];
    }
  }

  /** escapeHtml: '' for null or undefined, the five passes otherwise. */
  function EscapeHtml(str: Option<string>): string
  {
    if str.None? then "" else EscapeText(str.value)
  }

  /** escapeAttr: escapeHtml, then one more pass over double quotes. */
  function EscapeAttr(str: Option<string>): string
  {
    ReplaceAll(EscapeHtml(str), '"', "&quot;")
  }

  /** The characters markup gives meaning to, other than the ampersand. */
  predicate Special(c: char)
  {
    c == '<' || c == '>' || c == '"' || c == '\''
  }

  lemma {:induction false} EncodeNoSpecial(s: string)
    ensures forall i :: 0 <= i < |Encode(s)| ==> !Special(Encode(s)[i])
  {
    if s != [] {
      EncodeNoSpecial(s[1..]);
      var e := EncodeChar(s[0]);
      assert forall i :: 0 <= i < |e| ==> !Special(e[i]);
    }
  }

  /**
   * The escaped text is the character-by-character encoding: it contains no markup
   * character other than the ampersand, and decoding the five entities gives the text back.
   */
  lemma EscapeHtmlEncodes(s: string)
    ensures EscapeHtml(Some(s)) == Encode(s)
    ensures forall i :: 0 <= i < |EscapeHtml(Some(s))| ==> !Special(EscapeHtml(Some(s))[i])
    ensures Decode(EscapeHtml(Some(s))) == s
  {
    EscapeIsEncode(s);
    EncodeNoSpecial(s);
    DecodeEncode(s);
  }

  /** The extra pass of escapeAttr finds no double quote left: it returns what escapeHtml does. */
  lemma EscapeAttrIsEscapeHtml(str: Option<string>)
    ensures EscapeAttr(str) == EscapeHtml(str)
  {
    if str.Some? {
      EscapeHtmlEncodes(str.value);
    }
    var e := EscapeHtml(str);
    assert '"' !in e;
    ReplaceAllAbsent(e, '"', "&quot;");
  }

  // ---------------------------------------------------------------- the view state

  /** The dashboard's `state` object, which the event handlers update before re-rendering. */
  class MemberView {
    const members: seq<JsMember>
    var search: string
    var membership: string
    var dateRange: string
    var sort: string

    /** The state as the page starts: no search, every membership and date, most logins first. */
    constructor (members: seq<JsMember>)
      ensures this.members == members
      ensures search == "" && membership == "all" && dateRange == "all" && sort == "logins"
    {
      this.members := members;
      search := "";
      membership := "all";
      dateRange := "all";
      sort := "logins";
    }

    /** The search input handler: the lowered text, untrimmed. */
    method TypeSearch(value: string)
      modifies this
      ensures search == Lower(value)
      ensures membership == old(membership) && dateRange == old(dateRange) && sort == old(sort)
    {
      search := Lower(value);
    }

    method SelectMembership(value: string)
      modifies this
      ensures membership == value
      ensures search == old(search) && dateRange == old(dateRange) && sort == old(sort)
    {
      membership := value;
    }

    method SelectDateRange(value: string)
      modifies this
      ensures dateRange == value
      ensures search == old(search) && membership == old(membership) && sort == old(sort)
    {
      dateRange := value;
    }

    method SelectSort(value: string)
      modifies this
      ensures sort == value
      ensures search == old(search) && membership == old(membership) && dateRange == old(dateRange)
    {
      sort := value;
    }

    /** What renderResults lists. */
    method Shown(nowMs: int, dateMs: string -> int) returns (list: seq<JsMember>)
      ensures list == Visible(members, search, membership, dateRange, sort, nowMs, dateMs)
    {
      list := ApplyFilters(members, search, membership, dateRange, sort, nowMs, dateMs);
    }
  }
}
