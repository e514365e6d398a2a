/**
 * The aggregation behind the corporate usage dashboard
 * (recoveryfit-corp-dashboard/includes/class-rf-corp-data.php): user entries with
 * login metrics and memberships, parent groups that fold a corporate account's users,
 * and the invoice hierarchy that groups parents under their invoice label.
 *
 * strtotime is the parameter `parse` (None where it returns false), get_the_title is
 * `titleOf`; date_i18n output is the symbolic Shown.Formatted.
 */
module RfCorpData {
  import opened Wrappers
  import opened Seqs
  import opened Text
  import opened WpValues
  import opened Folds
  import opened RfConfig

  // ---------------------------------------------------------------- records

  datatype Membership = Membership(productId: int, productTitle: string, subscriptionId: int)

  datatype UserEntry = UserEntry(
    userId: int,
    name: string,
    email: string,
    username: string,
    loginCount: int,
    lastLogin: Option<Shown>,
    lastLoginTs: Option<int>,
    memberships: seq<Membership>,
    registeredAt: Option<Shown>)

  /**
   * A MPCA corporate account: its owner when that is a MeprUser, whether that owner
   * also passes the `instanceof WP_User` test of the member loop, and sub_users() when
   * it is an array.
   */
  datatype Account = Account(owner: Option<WpUser>, ownerIsWpUser: bool, subUsers: Option<seq<UserItem>>)

  /** A row of the corporate accounts table: its id and the account object, None when constructing it threw. */
  datatype AccountRow = AccountRow(corpId: int, account: Option<Account>)

  datatype ParentGroup = ParentGroup(
    corpId: int,
    parentUserId: int,
    parentLabel: string,
    totalLogins: int,
    lastLogin: Option<Shown>,
    lastLoginTs: Option<int>,
    subAccounts: seq<UserEntry>)

  datatype Invoice = Invoice(
    invoiceLabel: string,
    totalLogins: int,
    lastLogin: Option<Shown>,
    lastLoginTs: Option<int>,
    parents: seq<ParentGroup>)

  // ---------------------------------------------------------------- format_timestamp, format_datetime_string

  /** format_timestamp: nothing for an empty timestamp (null or 0), the formatted date otherwise. */
  function FormatTimestamp(ts: Option<int>): (r: Option<Shown>)
    ensures r.Some? <==> Present(ts)
    ensures r.Some? ==> r.value == Formatted(ts.value)
  {
    if Present(ts) then Some(Formatted(ts.value)) else None
  }

  /**
   * format_datetime_string: nothing ('') for an empty string, the formatted date when
   * `parse` reads it, the string itself otherwise.
   */
  function FormatDatetimeString(s: string, parse: string -> Option<int>): (r: Option<Shown>)
    ensures r.None? <==> PhpEmptyString(s)
    ensures r.Some? && parse(s).None? ==> r.value == Verbatim(s)
    ensures r.Some? && parse(s).Some? ==> r.value == Formatted(parse(s).value)
  {
    if PhpEmptyString(s) then None
    else match parse(s)
      case None => Some(Verbatim(s))
      case Some(t) => Some(Formatted(t))
  }

  // ---------------------------------------------------------------- get_user_memberships

  /**
   * The membership entry of one subscription item: none for a non-object; product ID 0
   * and title '' without a product ID; the post_title when set and non-empty, else
   * get_the_title; subscription ID 0 when `id` is unset.
   */
  function MembershipOf(item: SubscriptionItem, titleOf: int -> string): (r: Option<Membership>)
    ensures r.None? <==> item.NotAnObject?
    ensures r.Some? && (item.product.None? || item.product.value.id.None?) ==> r.value.productId == 0
    ensures r.Some? && r.value.productId == 0 ==> r.value.productTitle == ""
    ensures r.Some? && item.product.Some? && item.product.value.id.Some? ==>
      r.value.productId == item.product.value.id.value
    ensures r.Some? && r.value.productId != 0 ==>
      var p := item.product.value;
      r.value.productTitle == if p.title.Some? && p.title.value != "" then p.title.value else titleOf(r.value.productId)
    ensures r.Some? ==> r.value.subscriptionId == item.lowerId.GetOr(0)
  {
    match item
    case NotAnObject => None
    case Subscription(product, lowerId, _, _, _) =>
      var productId := if product.Some? && product.value.id.Some? then product.value.id.value else 0;
      var title :=
        if productId == 0 then ""
        else if product.value.title.Some? && product.value.title.value != "" then product.value.title.value
        else titleOf(productId);
      Some(Membership(productId, title, lowerId.GetOr(0)))
  }

  function MembershipFn(titleOf: int -> string): SubscriptionItem -> Option<Membership>
  {
    item => MembershipOf(item, titleOf)
  }

  /** The memberships of a subscription list: none when it is not an array, one per object otherwise. */
  function MembershipsOf(subscriptions: Option<seq<SubscriptionItem>>, titleOf: int -> string): seq<Membership>
  {
    if subscriptions.None? then [] else FilterMap(subscriptions.value, MembershipFn(titleOf))
  }

  /** get_user_memberships: the foreach that appends one entry per object subscription. */
  method GetUserMemberships(subscriptions: Option<seq<SubscriptionItem>>, titleOf: int -> string)
    returns (memberships: seq<Membership>)
    ensures memberships == MembershipsOf(subscriptions, titleOf)
  {
    memberships := [];
    if subscriptions.None? {
      return;
    }
    var items := subscriptions.value;
    var k := 0;
    while k < |items|
      invariant 0 <= k <= |items|
      invariant memberships == FilterMap(items[..k], MembershipFn(titleOf))
    {
      assert items[..k + 1][..k] == items[..k];
      var m := MembershipOf(items[k], titleOf);
      if m.Some? {
        memberships := memberships + [m.value];
      }
      k := k + 1;
    }
    assert items[..k] == items;
  }

  /**
   * Every object subscription yields exactly one membership, in order, and nothing
   * else does: the memberships are the images of the object items at positions `idx`.
   */
  lemma MembershipsSkipNonObjects(items: seq<SubscriptionItem>, titleOf: int -> string) returns (idx: seq<int>)
    ensures var ms := MembershipsOf(Some(items), titleOf);
      |idx| == |ms| &&
      (forall k :: 0 <= k < |idx| ==>
         0 <= idx[k] < |items| && items[idx[k]].Subscription? &&
         ms[k] == MembershipOf(items[idx[k]], titleOf).value) &&
      (forall k, l :: 0 <= k < l < |idx| ==> idx[k] < idx[l]) &&
      (forall i :: 0 <= i < |items| ==> (items[i].Subscription? <==> i in idx))
  {
    idx := FilterMapPicks(items, MembershipFn(titleOf));
  }

  // ---------------------------------------------------------------- build_user_entry

  /**
   * The last-login timestamp and display value of a raw meta value: nothing for an
   * empty value; a numeric value is the timestamp; other text is parsed, and when
   * that fails the text itself is shown.
   */
  function LastLoginOf(meta: RawMeta, parse: string -> Option<int>): (r: (Option<int>, Option<Shown>))
    ensures meta.Blank? ==> r == (None, None)
    ensures meta.Numeric? ==> r.0 == Some(meta.value)
    ensures meta.Other? ==> r.0 == parse(meta.text)
    ensures r.0.Some? ==> r.1 == FormatTimestamp(r.0)
    ensures meta.Other? && r.0.None? ==> r.1 == Some(Verbatim(meta.text))
  {
    match meta
    case Blank => (None, None)
    case Numeric(n) => (Some(n), FormatTimestamp(Some(n)))
    case Other(text) =>
      match parse(text)
      case Some(t) => (Some(t), FormatTimestamp(Some(t)))
      case None => (None, Some(Verbatim(text)))
  }

  /** The name shown for a user: trimmed "first last", else the display name, else the login. */
  function NameOf(u: WpUser): (r: string)
    ensures PhpTrim(u.firstName + " " + u.lastName) != "" ==> r == PhpTrim(u.firstName + " " + u.lastName)
    ensures PhpTrim(u.firstName + " " + u.lastName) == "" && u.displayName != "" ==> r == u.displayName
    ensures PhpTrim(u.firstName + " " + u.lastName) == "" && u.displayName == "" ==> r == u.login
  {
    var full := PhpTrim(u.firstName + " " + u.lastName);
    if full != "" then full else if u.displayName != "" then u.displayName else u.login
  }

  /** build_user_entry. */
  function UserEntryOf(u: WpUser, parse: string -> Option<int>, titleOf: int -> string): (e: UserEntry)
    ensures e.userId == u.id && e.name == NameOf(u) && e.email == u.email && e.username == u.login
    ensures e.loginCount == u.loginCount
    ensures (e.lastLoginTs, e.lastLogin) == LastLoginOf(u.lastLogin, parse)
    ensures e.memberships == MembershipsOf(u.subscriptions, titleOf)
    ensures e.registeredAt == FormatDatetimeString(u.registered, parse)
  {
    var (ts, shown) := LastLoginOf(u.lastLogin, parse);
    UserEntry(u.id, NameOf(u), u.email, u.login, u.loginCount, shown, ts,
              MembershipsOf(u.subscriptions, titleOf), FormatDatetimeString(u.registered, parse))
  }

  /** A shown last login with no timestamp is only ever the raw text that could not be parsed. */
  lemma EntryShownWithoutTs(u: WpUser, parse: string -> Option<int>, titleOf: int -> string)
    ensures var e := UserEntryOf(u, parse, titleOf);
      e.lastLogin.Some? && e.lastLoginTs.None? ==>
        u.lastLogin.Other? && parse(u.lastLogin.text).None? && e.lastLogin == Some(Verbatim(u.lastLogin.text))
  {
  }

  // ---------------------------------------------------------------- build_parent_groups

  function EntryFn(parse: string -> Option<int>, titleOf: int -> string): UserItem -> Option<UserEntry>
  {
    (item: UserItem) => if item.AUser? then Some(UserEntryOf(item.user, parse, titleOf)) else None
  }

  function EntryLogins(e: UserEntry): int { e.loginCount }
  function EntryTs(e: UserEntry): Option<int> { e.lastLoginTs }

  /**
   * The members of an account: the owner first (as a WP_User only when it is one), then
   * sub_users(), or nothing when that is not an array.
   */
  function MembersOf(owner: WpUser, ownerIsWpUser: bool, subUsers: Option<seq<UserItem>>): seq<UserItem>
  {
    [if ownerIsWpUser then AUser(owner) else NotAUser] + subUsers.GetOr([])
  }

  /** The group of one account row, or None when the account is skipped. */
  function GroupOf(row: AccountRow, parse: string -> Option<int>, titleOf: int -> string): (r: Option<ParentGroup>)
    ensures r.None? <==> row.account.None? || row.account.value.owner.None?
  {
    match row.account
    case None => None
    case Some(account) =>
      match account.owner
      case None => None
      case Some(owner) =>
        var entries := EntriesOf(MembersOf(owner, account.ownerIsWpUser, account.subUsers), parse, titleOf);
        var ts := LatestTs(entries, EntryTs);
        Some(ParentGroup(row.corpId, owner.id,
                         ParentLabel(owner.company, owner.location, owner.login, owner.id),
                         SumOf(entries, EntryLogins), FormatTimestamp(ts), ts, entries))
  }

  function GroupFn(parse: string -> Option<int>, titleOf: int -> string): AccountRow -> Option<ParentGroup>
  {
    row => GroupOf(row, parse, titleOf)
  }

  /** What build_parent_groups returns for the account rows of the query. */
  function ParentGroups(rows: seq<AccountRow>, parse: string -> Option<int>, titleOf: int -> string): seq<ParentGroup>
  {
    FilterMap(rows, GroupFn(parse, titleOf))
  }

  /** The entries of the members, one per WP_User among them. */
  function EntriesOf(members: seq<UserItem>, parse: string -> Option<int>, titleOf: int -> string): seq<UserEntry>
  {
    FilterMap(members, EntryFn(parse, titleOf))
  }

  lemma EntriesAppend(members: seq<UserItem>, j: nat, parse: string -> Option<int>, titleOf: int -> string)
    requires j < |members|
    ensures EntriesOf(members[..j + 1], parse, titleOf) ==
      EntriesOf(members[..j], parse, titleOf) +
      (if members[j].AUser? then [UserEntryOf(members[j].user, parse, titleOf)] else [])
  {
    assert members[..j + 1][..j] == members[..j];
  }

  /** The group of an account with an owner, spelled out. */
  lemma GroupOfOwned(corpId: int, owner: WpUser, isWpUser: bool, subUsers: Option<seq<UserItem>>,
                     parse: string -> Option<int>, titleOf: int -> string)
    ensures var entries := EntriesOf(MembersOf(owner, isWpUser, subUsers), parse, titleOf);
      var ts := LatestTs(entries, EntryTs);
      GroupOf(AccountRow(corpId, Some(Account(Some(owner), isWpUser, subUsers))), parse, titleOf) ==
        Some(ParentGroup(corpId, owner.id, ParentLabel(owner.company, owner.location, owner.login, owner.id),
                         SumOf(entries, EntryLogins), FormatTimestamp(ts), ts, entries))
  {
  }

  /** The state of the inner loop of build_parent_groups after the members `done`. */
  predicate Collected(done: seq<UserItem>, parse: string -> Option<int>, titleOf: int -> string,
                      subAccounts: seq<UserEntry>, total: int, lastTs: Option<int>)
  {
    && subAccounts == EntriesOf(done, parse, titleOf)
    && total == SumOf(subAccounts, EntryLogins)
    && lastTs == LatestTs(subAccounts, EntryTs)
  }

  /**
   * One step of the inner loop of build_parent_groups: a WP_User member has its entry
   * appended, its login count added and its timestamp kept when set and later.
   */
  method CollectMember(members: seq<UserItem>, j: nat, parse: string -> Option<int>, titleOf: int -> string,
                       subAccounts: seq<UserEntry>, total: int, lastTs: Option<int>)
    returns (subAccounts': seq<UserEntry>, total': int, lastTs': Option<int>)
    requires j < |members|
    requires Collected(members[..j], parse, titleOf, subAccounts, total, lastTs)
    ensures Collected(members[..j + 1], parse, titleOf, subAccounts', total', lastTs')
  {
    EntriesAppend(members, j, parse, titleOf);
    subAccounts', total', lastTs' := subAccounts, total, lastTs;
    if members[j].AUser? {
      var entry := UserEntryOf(members[j].user, parse, titleOf);
      SumOfAppend(subAccounts, entry, EntryLogins);
      LatestTsAppend(subAccounts, entry, EntryTs);
      subAccounts' := subAccounts + [entry];
      total' := total + entry.loginCount;
      if Present(entry.lastLoginTs) && (lastTs.None? || entry.lastLoginTs.value > lastTs.value) {
        lastTs' := entry.lastLoginTs;
      }
    }
  }

  /**
   * The inner loop of build_parent_groups: over the owner and the sub-users, append the
   * entry of each WP_User, add its login count and keep the latest set timestamp.
   */
  method CollectEntries(members: seq<UserItem>, parse: string -> Option<int>, titleOf: int -> string)
    returns (subAccounts: seq<UserEntry>, total: int, lastTs: Option<int>)
    ensures subAccounts == EntriesOf(members, parse, titleOf)
    ensures total == SumOf(subAccounts, EntryLogins)
    ensures lastTs == LatestTs(subAccounts, EntryTs)
  {
    subAccounts := [];
    total := 0;
    lastTs := None;
    var j := 0;
    assert members[..0] == [];
    while j < |members|
      invariant 0 <= j <= |members|
      invariant Collected(members[..j], parse, titleOf, subAccounts, total, lastTs)
    {
      subAccounts, total, lastTs := CollectMember(members, j, parse, titleOf, subAccounts, total, lastTs);
      j := j + 1;
    }
    assert members[..j] == members;
  }

  /** build_parent_groups for one account with an owner. */
  method BuildGroup(corpId: int, owner: WpUser, isWpUser: bool, subUsers: Option<seq<UserItem>>,
                    parse: string -> Option<int>, titleOf: int -> string)
    returns (group: ParentGroup)
    ensures Some(group) == GroupOf(AccountRow(corpId, Some(Account(Some(owner), isWpUser, subUsers))), parse, titleOf)
  {
    var subAccounts, total, lastTs := CollectEntries(MembersOf(owner, isWpUser, subUsers), parse, titleOf);
    GroupOfOwned(corpId, owner, isWpUser, subUsers, parse, titleOf);
    group := ParentGroup(corpId, owner.id, ParentLabel(owner.company, owner.location, owner.login, owner.id),
                         total, FormatTimestamp(lastTs), lastTs, subAccounts);
  }

  /** build_parent_groups: the loop over account rows, skipping those without an account or owner. */
  method BuildParentGroups(rows: seq<AccountRow>, parse: string -> Option<int>, titleOf: int -> string)
    returns (groups: seq<ParentGroup>)
    ensures groups == ParentGroups(rows, parse, titleOf)
  {
    groups := [];
    var k := 0;
    while k < |rows|
      invariant 0 <= k <= |rows|
      invariant groups == FilterMap(rows[..k], GroupFn(parse, titleOf))
    {
      assert rows[..k + 1][..k] == rows[..k];
      var row := rows[k];
      if row.account.Some? && row.account.value.owner.Some? {
        var account := row.account.value;
        var group := BuildGroup(row.corpId, account.owner.value, account.ownerIsWpUser, account.subUsers, parse, titleOf);
        assert row == AccountRow(row.corpId, Some(Account(account.owner, account.ownerIsWpUser, account.subUsers)));
        groups := groups + [group];
      }
      k := k + 1;
    }
    assert rows[..k] == rows;
  }

  /**
   * Every account that is constructed and has a MeprUser owner yields exactly one group,
   * in row order; the others yield none. `idx` lists the rows that yield groups.
   */
  lemma ParentGroupsInRowOrder(rows: seq<AccountRow>, parse: string -> Option<int>, titleOf: int -> string)
    returns (idx: seq<int>)
    ensures var gs := ParentGroups(rows, parse, titleOf);
      |idx| == |gs| &&
      (forall k :: 0 <= k < |idx| ==> 0 <= idx[k] < |rows| && GroupOf(rows[idx[k]], parse, titleOf) == Some(gs[k])) &&
      (forall k, l :: 0 <= k < l < |idx| ==> idx[k] < idx[l]) &&
      (forall i :: 0 <= i < |rows| ==>
         (rows[i].account.Some? && rows[i].account.value.owner.Some? <==> i in idx))
  {
    idx := FilterMapPicks(rows, GroupFn(parse, titleOf));
  }

  /**
   * A group lists the entries of the owner, when it is a WP_User, and of every WP_User
   * among sub_users, owner first and in order; its total is the sum of their login
   * counts; its timestamp is the latest one that is set, None when none is, and its
   * last_login is set exactly then.
   */
  lemma GroupAggregates(corpId: int, owner: WpUser, isWpUser: bool, subUsers: Option<seq<UserItem>>,
                        parse: string -> Option<int>, titleOf: int -> string)
    ensures var g := GroupOf(AccountRow(corpId, Some(Account(Some(owner), isWpUser, subUsers))), parse, titleOf).value;
      && (isWpUser ==> g.subAccounts != [] && g.subAccounts[0] == UserEntryOf(owner, parse, titleOf))
      && g.subAccounts == (if isWpUser then [UserEntryOf(owner, parse, titleOf)] else []) +
                          EntriesOf(subUsers.GetOr([]), parse, titleOf)
      && g.totalLogins == SumOf(g.subAccounts, EntryLogins)
      && (g.lastLoginTs.None? <==> forall i :: 0 <= i < |g.subAccounts| ==> !Present(g.subAccounts[i].lastLoginTs))
      && (g.lastLoginTs.Some? ==> forall i :: 0 <= i < |g.subAccounts| && Present(g.subAccounts[i].lastLoginTs) ==>
            g.subAccounts[i].lastLoginTs.value <= g.lastLoginTs.value)
      && (g.lastLogin.Some? <==> g.lastLoginTs.Some?)
  {
    GroupOfOwned(corpId, owner, isWpUser, subUsers, parse, titleOf);
    var entries := EntriesOf(MembersOf(owner, isWpUser, subUsers), parse, titleOf);
    EntriesOfOwned(owner, isWpUser, subUsers, parse, titleOf);
    EntriesLatest(entries);
    var g := GroupOf(AccountRow(corpId, Some(Account(Some(owner), isWpUser, subUsers))), parse, titleOf).value;
    assert g.subAccounts == entries;
    assert g.lastLoginTs == LatestTs(entries, EntryTs);
  }

  /** The entries of an account: the owner's first when it is a WP_User, then those of the WP_Users among sub_users. */
  lemma EntriesOfOwned(owner: WpUser, isWpUser: bool, subUsers: Option<seq<UserItem>>,
                       parse: string -> Option<int>, titleOf: int -> string)
    ensures EntriesOf(MembersOf(owner, isWpUser, subUsers), parse, titleOf) ==
      (if isWpUser then [UserEntryOf(owner, parse, titleOf)] else []) + EntriesOf(subUsers.GetOr([]), parse, titleOf)
  {
    var f := EntryFn(parse, titleOf);
    var head := if isWpUser then AUser(owner) else NotAUser;
    FilterMapAppend([head], subUsers.GetOr([]), f);
    assert FilterMap([head], f) == (if isWpUser then [UserEntryOf(owner, parse, titleOf)] else []) by {
      assert [head][..0] == [];
    }
  }

  /** The latest timestamp of a list of entries, read through their lastLoginTs field. */
  lemma EntriesLatest(entries: seq<UserEntry>)
    ensures var ts := LatestTs(entries, EntryTs);
      && (ts.None? <==> forall i :: 0 <= i < |entries| ==> !Present(entries[i].lastLoginTs))
      && (ts.Some? ==> forall i :: 0 <= i < |entries| && Present(entries[i].lastLoginTs) ==>
            entries[i].lastLoginTs.value <= ts.value)
  {
    assert forall i :: 0 <= i < |entries| ==> EntryTs(entries[i]) == entries[i].lastLoginTs;
  }

  // ---------------------------------------------------------------- build_invoice_hierarchy

  /** The invoice label a parent group is filed under. */
  function InvoiceKey(g: ParentGroup, classify: string -> string): string
  {
    classify(g.parentLabel)
  }

  function GroupLogins(g: ParentGroup): int { g.totalLogins }
  function GroupTs(g: ParentGroup): Option<int> { g.lastLoginTs }

  /** The invoice keys of the groups, in order. */
  function KeysOf(gs: seq<ParentGroup>, classify: string -> string): (r: seq<string>)
    ensures |r| == |gs| && forall i :: 0 <= i < |gs| ==> r[i] == InvoiceKey(gs[i], classify)
  {
    if gs == [] then [] else KeysOf(gs[..|gs| - 1], classify) + [InvoiceKey(gs[|gs| - 1], classify)]
  }

  function KeepIfKey(key: string, classify: string -> string): ParentGroup -> Option<ParentGroup>
  {
    g => if InvoiceKey(g, classify) == key then Some(g) else None
  }

  /** The groups filed under `key`, in input order. */
  function ParentsOf(gs: seq<ParentGroup>, key: string, classify: string -> string): (r: seq<ParentGroup>)
  {
    FilterMap(gs, KeepIfKey(key, classify))
  }

  /** The invoice group of `key` over `gs`, as the loop leaves it. */
  function InvoiceOf(gs: seq<ParentGroup>, key: string, classify: string -> string): Invoice
  {
    var parents := ParentsOf(gs, key, classify);
    var ts := LatestTs(parents, GroupTs);
    Invoice(key, SumOf(parents, GroupLogins), FormatTimestamp(ts), ts, parents)
  }

  /** The invoice groups of `labels`, in that order. */
  function InvoicesFor(gs: seq<ParentGroup>, labels: seq<string>, classify: string -> string): (r: seq<Invoice>)
    ensures |r| == |labels| && forall i :: 0 <= i < |labels| ==> r[i] == InvoiceOf(gs, labels[i], classify)
  {
    if labels == [] then [] else InvoicesFor(gs, labels[..|labels| - 1], classify) + [InvoiceOf(gs, labels[|labels| - 1], classify)]
  }

  /** What build_invoice_hierarchy returns: one invoice group per label, in first-seen order. */
  function InvoiceHierarchy(gs: seq<ParentGroup>, classify: string -> string): seq<Invoice>
  {
    InvoicesFor(gs, Dedup(KeysOf(gs, classify)), classify)
  }

  /** The update of the loop body: one more parent filed under an existing invoice group. */
  function AddParent(inv: Invoice, g: ParentGroup): Invoice
  {
    var later := Present(g.lastLoginTs) && (inv.lastLoginTs.None? || g.lastLoginTs.value > inv.lastLoginTs.value);
    Invoice(inv.invoiceLabel, inv.totalLogins + g.totalLogins,
            if later then FormatTimestamp(g.lastLoginTs) else inv.lastLogin,
            if later then g.lastLoginTs else inv.lastLoginTs,
            inv.parents + [g])
  }

  /** Appending a group changes only the invoice group it is filed under, by AddParent. */
  lemma InvoiceOfAppend(gs: seq<ParentGroup>, g: ParentGroup, key: string, classify: string -> string)
    ensures InvoiceOf(gs + [g], key, classify) ==
      if InvoiceKey(g, classify) == key then AddParent(InvoiceOf(gs, key, classify), g) else InvoiceOf(gs, key, classify)
  {
    var ps := ParentsOf(gs, key, classify);
    assert (gs + [g])[..|gs|] == gs;
    if InvoiceKey(g, classify) == key {
      assert ParentsOf(gs + [g], key, classify) == ps + [g];
      SumOfAppend(ps, g, GroupLogins);
      LatestTsAppend(ps, g, GroupTs);
      var inv := InvoiceOf(gs, key, classify);
      assert inv.lastLogin == FormatTimestamp(inv.lastLoginTs);
    } else {
      assert ParentsOf(gs + [g], key, classify) == ps;
    }
  }

  /** A label no group is filed under has the fresh invoice group of the loop. */
  lemma InvoiceOfAbsent(gs: seq<ParentGroup>, key: string, classify: string -> string)
    requires key !in KeysOf(gs, classify)
    ensures InvoiceOf(gs, key, classify) == Invoice(key, 0, None, None, [])
  {
    var idx := FilterMapPicks(gs, KeepIfKey(key, classify));
  }

  lemma KeysOfAppend(gs: seq<ParentGroup>, g: ParentGroup, classify: string -> string)
    ensures KeysOf(gs + [g], classify) == KeysOf(gs, classify) + [InvoiceKey(g, classify)]
  {
    assert (gs + [g])[..|gs|] == gs;
  }

  /**
   * The dictionary of the loop after the groups `gs`: keyed by the labels seen, in
   * first-seen order, each holding the invoice group of its label.
   */
  ghost predicate Filed(byLabel: map<string, Invoice>, order: seq<string>, gs: seq<ParentGroup>, classify: string -> string)
  {
    && order == Dedup(KeysOf(gs, classify))
    && (forall key :: key in byLabel <==> key in order)
    && (forall key :: key in byLabel ==> byLabel[key] == InvoiceOf(gs, key, classify))
  }

  /**
   * The dictionary in the middle of a turn for `g`: its keys are already those of
   * `gs + [g]`, its groups still those of `gs`.
   */
  ghost predicate FiledBefore(byLabel: map<string, Invoice>, order: seq<string>, gs: seq<ParentGroup>, g: ParentGroup,
                              classify: string -> string)
  {
    && order == Dedup(KeysOf(gs + [g], classify))
    && (forall key :: key in byLabel <==> key in order)
    && (forall key :: key in byLabel ==> byLabel[key] == InvoiceOf(gs, key, classify))
  }

  /** A label that is already set needs no new group. */
  lemma OpenExisting(byLabel: map<string, Invoice>, order: seq<string>, gs: seq<ParentGroup>, g: ParentGroup,
                     classify: string -> string)
    requires Filed(byLabel, order, gs, classify) && InvoiceKey(g, classify) in byLabel
    ensures FiledBefore(byLabel, order, gs, g, classify)
  {
    FiledOrder(order, gs, g, classify, true, order);
  }

  /** A new label gets the empty group, and its key goes last. */
  lemma OpenNew(byLabel: map<string, Invoice>, order: seq<string>, gs: seq<ParentGroup>, g: ParentGroup,
                classify: string -> string)
    requires Filed(byLabel, order, gs, classify) && InvoiceKey(g, classify) !in byLabel
    ensures var key := InvoiceKey(g, classify);
      FiledBefore(byLabel[key := Invoice(key, 0, None, None, [])], order + [key], gs, g, classify)
  {
    var key := InvoiceKey(g, classify);
    var next := byLabel[key := Invoice(key, 0, None, None, [])];
    FiledOrder(order, gs, g, classify, false, order + [key]);
    assert forall other :: other in next <==> other in order + [key];
    OpenNewValues(byLabel, order, gs, key, classify);
    FiledBeforeIntro(next, order + [key], gs, g, classify);
  }

  /** The empty group of a label no parent has yet is that label's group. */
  lemma OpenNewValues(byLabel: map<string, Invoice>, order: seq<string>, gs: seq<ParentGroup>, key: string,
                      classify: string -> string)
    requires Filed(byLabel, order, gs, classify) && key !in byLabel
    ensures var next := byLabel[key := Invoice(key, 0, None, None, [])];
      forall other :: other in next ==> next[other] == InvoiceOf(gs, other, classify)
  {
    InvoiceOfAbsent(gs, key, classify);
  }

  /** Adding the parent to its label's group completes the turn. */
  lemma AddToGroup(byLabel: map<string, Invoice>, order: seq<string>, gs: seq<ParentGroup>, g: ParentGroup,
                   classify: string -> string)
    requires FiledBefore(byLabel, order, gs, g, classify)
    ensures InvoiceKey(g, classify) in byLabel
    ensures var key := InvoiceKey(g, classify);
      Filed(byLabel[key := AddParent(byLabel[key], g)], order, gs + [g], classify)
  {
    var key := InvoiceKey(g, classify);
    KeyFiledBefore(byLabel, order, gs, g, classify);
    FiledStepValues(byLabel, gs, g, classify);
    var next := byLabel[key := AddParent(byLabel[key], g)];
    assert forall other :: other in next <==> other in order;
    FiledIntro(next, order, gs + [g], classify);
  }

  lemma FiledIntro(byLabel: map<string, Invoice>, order: seq<string>, gs: seq<ParentGroup>, classify: string -> string)
    requires order == Dedup(KeysOf(gs, classify))
    requires forall key :: key in byLabel <==> key in order
    requires forall key :: key in byLabel ==> byLabel[key] == InvoiceOf(gs, key, classify)
    ensures Filed(byLabel, order, gs, classify)
  {
  }

  lemma FiledBeforeIntro(byLabel: map<string, Invoice>, order: seq<string>, gs: seq<ParentGroup>, g: ParentGroup,
                         classify: string -> string)
    requires order == Dedup(KeysOf(gs + [g], classify))
    requires forall key :: key in byLabel <==> key in order
    requires forall key :: key in byLabel ==> byLabel[key] == InvoiceOf(gs, key, classify)
    ensures FiledBefore(byLabel, order, gs, g, classify)
  {
  }

  /** In the middle of a turn, the parent's label is a key of the dictionary. */
  lemma KeyFiledBefore(byLabel: map<string, Invoice>, order: seq<string>, gs: seq<ParentGroup>, g: ParentGroup,
                       classify: string -> string)
    requires FiledBefore(byLabel, order, gs, g, classify)
    ensures InvoiceKey(g, classify) in byLabel
    ensures byLabel[InvoiceKey(g, classify)] == InvoiceOf(gs, InvoiceKey(g, classify), classify)
  {
    var keys := KeysOf(gs + [g], classify);
    assert keys[|gs|] == InvoiceKey(g, classify);
    assert InvoiceKey(g, classify) in order;
  }

  /** The key order after one more group: its label is appended when it is new. */
  lemma FiledOrder(order: seq<string>, gs: seq<ParentGroup>, g: ParentGroup, classify: string -> string,
                   seen: bool, nextOrder: seq<string>)
    requires order == Dedup(KeysOf(gs, classify))
    requires seen <==> InvoiceKey(g, classify) in order
    requires nextOrder == (if seen then order else order + [InvoiceKey(g, classify)])
    ensures nextOrder == Dedup(KeysOf(gs + [g], classify))
  {
    KeysOfAppend(gs, g, classify);
    DedupAppend(KeysOf(gs, classify), InvoiceKey(g, classify));
  }

  /** The dictionary after one more group: only its own label's group changes, by AddParent. */
  lemma FiledStepValues(byLabel: map<string, Invoice>, gs: seq<ParentGroup>, g: ParentGroup,
                        classify: string -> string)
    requires forall key :: key in byLabel ==> byLabel[key] == InvoiceOf(gs, key, classify)
    requires InvoiceKey(g, classify) in byLabel
    ensures var key := InvoiceKey(g, classify);
      var next := byLabel[key := AddParent(byLabel[key], g)];
      forall other :: other in next ==> next[other] == InvoiceOf(gs + [g], other, classify)
  {
    var key := InvoiceKey(g, classify);
    var next := byLabel[key := AddParent(byLabel[key], g)];
    forall other | other in next
      ensures next[other] == InvoiceOf(gs + [g], other, classify)
    {
      InvoiceOfAppend(gs, g, other, classify);
      if other != key {
        assert next[other] == byLabel[other];
      }
    }
  }

  /** array_values: the dictionary's values in the insertion order of their keys. */
  method ValuesInOrder(byLabel: map<string, Invoice>, order: seq<string>) returns (invoices: seq<Invoice>)
    requires forall key :: key in order ==> key in byLabel
    ensures |invoices| == |order| && forall i :: 0 <= i < |order| ==> invoices[i] == byLabel[order[i]]
  {
    invoices := [];
    var m := 0;
    while m < |order|
      invariant 0 <= m <= |order|
      invariant |invoices| == m && forall i :: 0 <= i < m ==> invoices[i] == byLabel[order[i]]
    {
      invoices := invoices + [byLabel[order[m]]];
      m := m + 1;
    }
  }

  /** The loop body: open the label's group if it is new, then add the parent to it. */
  method FileGroup(byLabel: map<string, Invoice>, order: seq<string>, ghost gs: seq<ParentGroup>, g: ParentGroup,
                   classify: string -> string)
    returns (next: map<string, Invoice>, nextOrder: seq<string>)
    requires Filed(byLabel, order, gs, classify)
    ensures Filed(next, nextOrder, gs + [g], classify)
  {
    var key := InvoiceKey(g, classify);
    next, nextOrder := byLabel, order;
    if key !in next {
      OpenNew(byLabel, order, gs, g, classify);
      next := next[key := Invoice(key, 0, None, None, [])];
      nextOrder := nextOrder + [key];
    } else {
      OpenExisting(byLabel, order, gs, g, classify);
    }
    AddToGroup(next, nextOrder, gs, g, classify);
    next := next[key := AddParent(next[key], g)];
  }

  /**
   * build_invoice_hierarchy: the loop that files each parent group under its invoice
   * label in a dictionary keyed by label, then array_values in insertion order.
   */
  method BuildInvoiceHierarchy(gs: seq<ParentGroup>, classify: string -> string) returns (invoices: seq<Invoice>)
    ensures invoices == InvoiceHierarchy(gs, classify)
  {
    var byLabel: map<string, Invoice> := map[];
    var order: seq<string> := [];
    var k := 0;
    while k < |gs|
      invariant 0 <= k <= |gs|
      invariant Filed(byLabel, order, gs[..k], classify)
    {
      assert gs[..k + 1] == gs[..k] + [gs[k]];
      byLabel, order := FileGroup(byLabel, order, gs[..k], gs[k], classify);
      k := k + 1;
    }
    assert gs[..k] == gs;
    invoices := ValuesInOrder(byLabel, order);
    FiledValues(byLabel, order, gs, classify, invoices);
  }

  lemma FiledValues(byLabel: map<string, Invoice>, order: seq<string>, gs: seq<ParentGroup>,
                    classify: string -> string, invoices: seq<Invoice>)
    requires Filed(byLabel, order, gs, classify)
    requires |invoices| == |order| && forall i :: 0 <= i < |order| ==> invoices[i] == byLabel[order[i]]
    ensures invoices == InvoiceHierarchy(gs, classify)
  {
    var h := InvoiceHierarchy(gs, classify);
    assert |h| == |invoices|;
    forall i | 0 <= i < |order| ensures invoices[i] == h[i] {
      assert order[i] in order;
    }
  }

  /** No groups, no invoices. */
  lemma InvoiceHierarchyEmpty(classify: string -> string)
    ensures InvoiceHierarchy([], classify) == []
  {
  }

  /**
   * Each invoice group holds exactly the parents filed under its label, in input order,
   * and every parent group appears in the invoice group of its own label.
   */
  lemma InvoiceMembership(gs: seq<ParentGroup>, classify: string -> string)
    ensures var h := InvoiceHierarchy(gs, classify);
      forall k :: 0 <= k < |h| ==> forall g :: g in h[k].parents ==> InvoiceKey(g, classify) == h[k].invoiceLabel
    ensures var h := InvoiceHierarchy(gs, classify);
      forall i :: 0 <= i < |gs| ==> exists k :: 0 <= k < |h| && h[k].invoiceLabel == InvoiceKey(gs[i], classify) && gs[i] in h[k].parents
    ensures var h := InvoiceHierarchy(gs, classify);
      forall k, l :: 0 <= k < l < |h| ==> h[k].invoiceLabel != h[l].invoiceLabel
  {
    InvoiceParentsMatch(gs, classify);
    var h := InvoiceHierarchy(gs, classify);
    forall i | 0 <= i < |gs|
      ensures exists k :: 0 <= k < |h| && h[k].invoiceLabel == InvoiceKey(gs[i], classify) && gs[i] in h[k].parents
    {
      var k := InvoiceHolding(gs, classify, i);
    }
  }

  lemma InvoiceParentsMatch(gs: seq<ParentGroup>, classify: string -> string)
    ensures var h := InvoiceHierarchy(gs, classify);
      forall k :: 0 <= k < |h| ==> forall g :: g in h[k].parents ==> InvoiceKey(g, classify) == h[k].invoiceLabel
  {
    var labels := Dedup(KeysOf(gs, classify));
    var h := InvoiceHierarchy(gs, classify);
    forall k | 0 <= k < |h|
      ensures forall g :: g in h[k].parents ==> InvoiceKey(g, classify) == h[k].invoiceLabel
    {
      var idx := FilterMapPicks(gs, KeepIfKey(labels[k], classify));
      forall g | g in h[k].parents ensures InvoiceKey(g, classify) == h[k].invoiceLabel {
        var j :| 0 <= j < |h[k].parents| && h[k].parents[j] == g;
        assert KeepIfKey(labels[k], classify)(gs[idx[j]]) == Some(g);
      }
    }
  }

  /** The invoice group `k` that holds the group `gs[i]`. */
  lemma InvoiceHolding(gs: seq<ParentGroup>, classify: string -> string, i: int) returns (k: int)
    requires 0 <= i < |gs|
    ensures var h := InvoiceHierarchy(gs, classify);
      0 <= k < |h| && h[k].invoiceLabel == InvoiceKey(gs[i], classify) && gs[i] in h[k].parents
  {
    var labels := Dedup(KeysOf(gs, classify));
    var h := InvoiceHierarchy(gs, classify);
    var key := InvoiceKey(gs[i], classify);
    assert KeysOf(gs, classify)[i] == key;
    k := FirstIndex(labels, key);
    var idx := FilterMapPicks(gs, KeepIfKey(key, classify));
    assert i in idx;
    var j :| 0 <= j < |idx| && idx[j] == i;
    assert h[k].parents[j] == gs[i];
  }

  /** Invoice groups come in the order in which their labels first occur among the parents. */
  lemma InvoiceFirstSeenOrder(gs: seq<ParentGroup>, classify: string -> string)
    ensures var h := InvoiceHierarchy(gs, classify);
      forall k, l :: 0 <= k < l < |h| ==>
        h[k].invoiceLabel in KeysOf(gs, classify) && h[l].invoiceLabel in KeysOf(gs, classify) &&
        FirstIndex(KeysOf(gs, classify), h[k].invoiceLabel) < FirstIndex(KeysOf(gs, classify), h[l].invoiceLabel)
  {
    DedupFirstSeenOrder(KeysOf(gs, classify));
  }

  /** The sum of `f` over the parents of each label in `labels`, label by label. */
  function SpreadSum(gs: seq<ParentGroup>, labels: seq<string>, f: ParentGroup -> int, classify: string -> string): int
  {
    if labels == [] then 0
    else SpreadSum(gs, labels[..|labels| - 1], f, classify) + SumOf(ParentsOf(gs, labels[|labels| - 1], classify), f)
  }

  /** One more group adds its value to the share of its own label, if that label is listed once. */
  lemma {:induction false} SpreadSumAppend(gs: seq<ParentGroup>, g: ParentGroup, labels: seq<string>, f: ParentGroup -> int, classify: string -> string)
    requires Distinct(labels)
    ensures SpreadSum(gs + [g], labels, f, classify) ==
      SpreadSum(gs, labels, f, classify) + (if InvoiceKey(g, classify) in labels then f(g) else 0)
  {
    if labels != [] {
      var n := |labels| - 1;
      var front := labels[..n];
      assert Distinct(front);
      SpreadSumAppend(gs, g, front, f, classify);
      assert (gs + [g])[..|gs|] == gs;
      var ps := ParentsOf(gs, labels[n], classify);
      if InvoiceKey(g, classify) == labels[n] {
        assert ParentsOf(gs + [g], labels[n], classify) == ps + [g];
        SumOfAppend(ps, g, f);
        assert InvoiceKey(g, classify) !in front;
      } else {
        assert ParentsOf(gs + [g], labels[n], classify) == ps;
      }
      assert InvoiceKey(g, classify) in labels <==> InvoiceKey(g, classify) in front || InvoiceKey(g, classify) == labels[n];
    }
  }

  /** Spread over distinct labels that cover every group's key, a sum is the sum over all groups. */
  lemma {:induction false} SpreadSumAll(gs: seq<ParentGroup>, labels: seq<string>, f: ParentGroup -> int, classify: string -> string)
    requires Distinct(labels)
    requires forall i :: 0 <= i < |gs| ==> InvoiceKey(gs[i], classify) in labels
    ensures SpreadSum(gs, labels, f, classify) == SumOf(gs, f)
  {
    if gs == [] {
      SpreadSumEmpty(labels, f, classify);
    } else {
      var n := |gs| - 1;
      assert gs == gs[..n] + [gs[n]];
      SpreadSumAll(gs[..n], labels, f, classify);
      SpreadSumAppend(gs[..n], gs[n], labels, f, classify);
      SumOfAppend(gs[..n], gs[n], f);
    }
  }

  lemma {:induction false} SpreadSumEmpty(labels: seq<string>, f: ParentGroup -> int, classify: string -> string)
    ensures SpreadSum([], labels, f, classify) == 0
  {
    if labels != [] {
      SpreadSumEmpty(labels[..|labels| - 1], f, classify);
    }
  }

  function InvoiceLogins(inv: Invoice): int { inv.totalLogins }
  function ParentCount(inv: Invoice): int { |inv.parents| }
  function One(g: ParentGroup): int { 1 }

  lemma {:induction false} SumOfOne(s: seq<ParentGroup>)
    ensures SumOf(s, One) == |s|
  {
    if s != [] {
      SumOfOne(s[..|s| - 1]);
    }
  }

  lemma {:induction false} InvoicesForSums(gs: seq<ParentGroup>, labels: seq<string>, classify: string -> string)
    ensures SumOf(InvoicesFor(gs, labels, classify), InvoiceLogins) == SpreadSum(gs, labels, GroupLogins, classify)
    ensures SumOf(InvoicesFor(gs, labels, classify), ParentCount) == SpreadSum(gs, labels, One, classify)
  {
    if labels != [] {
      var n := |labels| - 1;
      InvoicesForSums(gs, labels[..n], classify);
      SumOfAppend(InvoicesFor(gs, labels[..n], classify), InvoiceOf(gs, labels[n], classify), InvoiceLogins);
      SumOfAppend(InvoicesFor(gs, labels[..n], classify), InvoiceOf(gs, labels[n], classify), ParentCount);
      SumOfOne(ParentsOf(gs, labels[n], classify));
    }
  }

  /** The first-seen labels are distinct and hold every group's label. */
  lemma LabelsCover(gs: seq<ParentGroup>, classify: string -> string)
    ensures Distinct(Dedup(KeysOf(gs, classify)))
    ensures forall i :: 0 <= i < |gs| ==> InvoiceKey(gs[i], classify) in Dedup(KeysOf(gs, classify))
  {
    var keys := KeysOf(gs, classify);
    forall i | 0 <= i < |gs| ensures InvoiceKey(gs[i], classify) in Dedup(keys) {
      assert keys[i] == InvoiceKey(gs[i], classify);
    }
  }

  /**
   * The invoice groups partition the parent groups: they hold as many parents as there
   * are groups, and their login totals add up to the groups' totals.
   */
  lemma InvoicePartition(gs: seq<ParentGroup>, classify: string -> string)
    ensures SumOf(InvoiceHierarchy(gs, classify), ParentCount) == |gs|
    ensures SumOf(InvoiceHierarchy(gs, classify), InvoiceLogins) == SumOf(gs, GroupLogins)
  {
    var labels := Dedup(KeysOf(gs, classify));
    LabelsCover(gs, classify);
    InvoicesForSums(gs, labels, classify);
    SpreadSumAll(gs, labels, GroupLogins, classify);
    SpreadSumAll(gs, labels, One, classify);
    SumOfOne(gs);
  }

  /**
   * An invoice group's timestamp is the latest set timestamp of its parents, None when
   * none is set, and its last_login is set exactly when its timestamp is.
   */
  lemma InvoiceLatest(gs: seq<ParentGroup>, classify: string -> string)
    ensures var h := InvoiceHierarchy(gs, classify);
      forall k :: 0 <= k < |h| ==>
        && h[k].totalLogins == SumOf(h[k].parents, GroupLogins)
        && (h[k].lastLoginTs.None? <==> forall i :: 0 <= i < |h[k].parents| ==> !Present(h[k].parents[i].lastLoginTs))
        && (h[k].lastLoginTs.Some? ==> forall i :: 0 <= i < |h[k].parents| && Present(h[k].parents[i].lastLoginTs) ==>
              h[k].parents[i].lastLoginTs.value <= h[k].lastLoginTs.value)
        && (h[k].lastLogin.Some? <==> h[k].lastLoginTs.Some?)
  {
    var h := InvoiceHierarchy(gs, classify);
    forall k | 0 <= k < |h|
      ensures forall i :: 0 <= i < |h[k].parents| ==> GroupTs(h[k].parents[i]) == h[k].parents[i].lastLoginTs
    {
    }
  }

  /**
   * build_invoice_hierarchy over build_parent_groups, with parents filed under
   * rf_get_invoice_label_for_parent of their label; no groups, no invoices.
   */
  method BuildHierarchyFromRows(rows: seq<AccountRow>, parse: string -> Option<int>, titleOf: int -> string)
    returns (invoices: seq<Invoice>)
    ensures invoices == InvoiceHierarchy(ParentGroups(rows, parse, titleOf), InvoiceLabelForParent)
  {
    var groups := BuildParentGroups(rows, parse, titleOf);
    if groups == [] {
      return [];
    }
    invoices := BuildInvoiceHierarchy(groups, InvoiceLabelForParent);
  }
}
