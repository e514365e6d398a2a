/**
 * The data provider of the member usage dashboard
 * (recoveryfit-member-dashboard/includes/class-rf-member-data.php): one record per
 * WordPress user with its login metrics and MemberPress subscriptions, and the totals
 * shown above the table.
 *
 * strtotime is the parameter `parse` (None where it returns false), time() is the
 * parameter `now`, class_exists('MeprUser') the flag `memberPressLoaded`; gmdate
 * output is the symbolic Shown.Formatted.
 */
module RfMemberData {
  import opened Wrappers
  import opened Seqs
  import opened WpValues
  import opened Folds

  // ---------------------------------------------------------------- records

  /** One membership of a member; `productTitle` is None where post_title is null. */
  datatype Subscribed = Subscribed(
    subscriptionId: int,
    productId: int,
    productTitle: Option<string>,
    status: string,
    createdAt: string)

  datatype Member = Member(
    userId: int,
    displayName: string,
    email: string,
    username: string,
    role: string,
    loginCount: int,
    lastLogin: Option<Shown>,
    lastLoginTs: Option<int>,
    registeredAt: string,
    memberships: seq<Subscribed>)

  datatype Totals = Totals(totalMembers: int, active30: int, neverLoggedIn: int, totalLoginEvents: int)

  /** The title given to a subscription whose product() is missing or falsy. */
  const UnknownProduct := "Unknown product"

  /** DAY_IN_SECONDS. */
  const DaySeconds := 86400

  // ---------------------------------------------------------------- normalize_timestamp

  /**
   * normalize_timestamp: nothing for an empty value; a numeric value when it is
   * positive; otherwise what strtotime reads, with 0 and false read as nothing.
   * A timestamp it returns is never 0.
   */
  function NormalizeTimestamp(value: RawMeta, parse: string -> Option<int>): (r: Option<int>)
    ensures r.Some? ==> r.value != 0
    ensures value.Blank? ==> r.None?
    ensures value.Numeric? ==> (r.Some? <==> value.value > 0) && (r.Some? ==> r.value == value.value)
    ensures value.Other? ==> (r.Some? <==> parse(value.text).Some? && parse(value.text).value != 0)
    ensures value.Other? && r.Some? ==> r == parse(value.text)
  {
    match value
    case Blank => None
    case Numeric(n) => if n > 0 then Some(n) else None
    case Other(text) =>
      match parse(text)
      case None => None
      case Some(t) => if t == 0 then None else Some(t)
  }

  /** A normalized timestamp, stored back as a number, normalizes to itself. */
  lemma NormalizeTimestampStable(value: RawMeta, parse: string -> Option<int>)
    requires NormalizeTimestamp(value, parse).Some? && NormalizeTimestamp(value, parse).value > 0
    ensures var t := NormalizeTimestamp(value, parse).value;
      NormalizeTimestamp(Numeric(t), parse) == Some(t)
  {
  }

  // ---------------------------------------------------------------- format_member

  /**
   * The membership entry of one subscription item: none for a non-object; the product's
   * ID and post_title when product() gives one, else 0 and "Unknown product"; the `ID`
   * property, status and created_at, each defaulted when unset.
   */
  function SubscribedOf(item: SubscriptionItem): (r: Option<Subscribed>)
    ensures r.None? <==> item.NotAnObject?
    ensures r.Some? ==> r.value.subscriptionId == item.upperId.GetOr(0)
    ensures r.Some? && item.product.None? ==> r.value.productId == 0 && r.value.productTitle == Some(UnknownProduct)
    ensures r.Some? && item.product.Some? ==>
      r.value.productId == item.product.value.id.GetOr(0) && r.value.productTitle == item.product.value.title
    ensures r.Some? ==> r.value.status == item.status.GetOr("") && r.value.createdAt == item.createdAt.GetOr("")
  {
    match item
    case NotAnObject => None
    case Subscription(product, _, upperId, status, createdAt) =>
      var productId := if product.Some? then product.value.id.GetOr(0) else 0;
      var title := if product.Some? then product.value.title else Some(UnknownProduct);
      Some(Subscribed(upperId.GetOr(0), productId, title, status.GetOr(""), createdAt.GetOr("")))
  }

  function SubscribedFn(): SubscriptionItem -> Option<Subscribed>
  {
    item => SubscribedOf(item)
  }

  /** The memberships of a user: none without MemberPress or when the subscriptions are not an array. */
  function SubscriptionsOf(u: WpUser, memberPressLoaded: bool): seq<Subscribed>
  {
    if !memberPressLoaded || u.subscriptions.None? then []
    else FilterMap(u.subscriptions.value, SubscribedFn())
  }

  /** format_member. */
  function MemberOf(u: WpUser, memberPressLoaded: bool, parse: string -> Option<int>): (m: Member)
    ensures m.userId == u.id && m.displayName == u.displayName && m.email == u.email && m.username == u.login
    ensures m.role == Join(u.roles, ", ") && m.loginCount == u.loginCount && m.registeredAt == u.registered
    ensures m.lastLoginTs == NormalizeTimestamp(u.lastLogin, parse)
    ensures m.lastLogin.Some? <==> m.lastLoginTs.Some?
    ensures m.lastLogin.Some? ==> m.lastLogin.value == Formatted(m.lastLoginTs.value)
    ensures m.memberships == SubscriptionsOf(u, memberPressLoaded)
  {
    var ts := NormalizeTimestamp(u.lastLogin, parse);
    Member(u.id, u.displayName, u.email, u.login, Join(u.roles, ", "), u.loginCount,
           if ts.Some? then Some(Formatted(ts.value)) else None, ts, u.registered,
           SubscriptionsOf(u, memberPressLoaded))
  }

  /**
   * format_member with its loop over active_product_subscriptions: every object
   * subscription gives one membership, in order.
   */
  method FormatMember(u: WpUser, memberPressLoaded: bool, parse: string -> Option<int>) returns (m: Member)
    ensures m == MemberOf(u, memberPressLoaded, parse)
  {
    var ts := NormalizeTimestamp(u.lastLogin, parse);
    var memberships: seq<Subscribed> := [];
    if memberPressLoaded && u.subscriptions.Some? {
      var items := u.subscriptions.value;
      var k := 0;
      while k < |items|
        invariant 0 <= k <= |items|
        invariant memberships == FilterMap(items[..k], SubscribedFn())
      {
        assert items[..k + 1][..k] == items[..k];
        if items[k].Subscription? {
          memberships := memberships + [SubscribedOf(items[k]).value];
        }
        k := k + 1;
      }
      assert items[..k] == items;
    }
    var shown := if ts.Some? then Some(Formatted(ts.value)) else None;
    m := Member(u.id, u.displayName, u.email, u.login, Join(u.roles, ", "), u.loginCount,
                shown, ts, u.registered, memberships);
  }

  /**
   * With MemberPress loaded and an array of subscriptions, the memberships are the
   * entries of the object items at positions `idx`, in order, and every object item has one.
   */
  lemma SubscriptionsSkipNonObjects(u: WpUser, parse: string -> Option<int>) returns (idx: seq<int>)
    requires u.subscriptions.Some?
    ensures var ms := MemberOf(u, true, parse).memberships;
      var items := u.subscriptions.value;
      |idx| == |ms| &&
      (forall k :: 0 <= k < |idx| ==>
         0 <= idx[k] < |items| && items[idx[k]].Subscription? && ms[k] == SubscribedOf(items[idx[k]]).value) &&
      (forall k, l :: 0 <= k < l < |idx| ==> idx[k] < idx[l]) &&
      (forall i :: 0 <= i < |items| ==> (items[i].Subscription? <==> i in idx))
  {
    idx := FilterMapPicks(u.subscriptions.value, SubscribedFn());
  }

  // ---------------------------------------------------------------- get_members

  function MemberFn(memberPressLoaded: bool, parse: string -> Option<int>): UserItem -> Option<Member>
  {
    (item: UserItem) => if item.AUser? then Some(MemberOf(item.user, memberPressLoaded, parse)) else None
  }

  /** What get_members returns for the query results: one record per WP_User, in order. */
  function MembersOf(items: seq<UserItem>, memberPressLoaded: bool, parse: string -> Option<int>): seq<Member>
  {
    FilterMap(items, MemberFn(memberPressLoaded, parse))
  }

  /** get_members: the loop over the query results. */
  method GetMembers(items: seq<UserItem>, memberPressLoaded: bool, parse: string -> Option<int>)
    returns (members: seq<Member>)
    ensures members == MembersOf(items, memberPressLoaded, parse)
  {
    members := [];
    var k := 0;
    while k < |items|
      invariant 0 <= k <= |items|
      invariant members == FilterMap(items[..k], MemberFn(memberPressLoaded, parse))
    {
      assert items[..k + 1][..k] == items[..k];
      if items[k].AUser? {
        var m := FormatMember(items[k].user, memberPressLoaded, parse);
        members := members + [m];
      }
      k := k + 1;
    }
    assert items[..k] == items;
  }

  /** Every record get_members returns has a timestamp that is either unset or non-zero. */
  lemma MembersTimestampsNonZero(items: seq<UserItem>, memberPressLoaded: bool, parse: string -> Option<int>)
    ensures var ms := MembersOf(items, memberPressLoaded, parse);
      forall i :: 0 <= i < |ms| ==> (Present(ms[i].lastLoginTs) <==> ms[i].lastLoginTs.Some?)
  {
    var ms := MembersOf(items, memberPressLoaded, parse);
    var idx := FilterMapPicks(items, MemberFn(memberPressLoaded, parse));
    forall i | 0 <= i < |ms| ensures Present(ms[i].lastLoginTs) <==> ms[i].lastLoginTs.Some? {
      assert ms[i] == MemberOf(items[idx[i]].user, memberPressLoaded, parse);
    }
  }

  // ---------------------------------------------------------------- get_dashboard_payload

  function MemberLogins(m: Member): int { m.loginCount }

  /** empty($member['last_login_ts']). */
  function NeverFn(): Member -> bool
  {
    (m: Member) => !Present(m.lastLoginTs)
  }

  /** A set timestamp at or after `threshold`. */
  function ActiveFn(threshold: int): Member -> bool
  {
    (m: Member) => Present(m.lastLoginTs) && m.lastLoginTs.value >= threshold
  }

  /** The totals of the payload for `members` at time `now`. */
  function TotalsOf(members: seq<Member>, now: int): Totals
  {
    Totals(|members|, CountWhere(members, ActiveFn(now - 30 * DaySeconds)),
           CountWhere(members, NeverFn()), SumOf(members, MemberLogins))
  }

  /**
   * get_dashboard_payload: the members and the loop that counts login events, members
   * who never logged in and members active in the last thirty days.
   */
  method DashboardPayload(items: seq<UserItem>, memberPressLoaded: bool, parse: string -> Option<int>, now: int)
    returns (members: seq<Member>, totals: Totals)
    ensures members == MembersOf(items, memberPressLoaded, parse)
    ensures totals == TotalsOf(members, now)
  {
    members := GetMembers(items, memberPressLoaded, parse);
    var thirtyDaysAgo := now - 30 * DaySeconds;
    var active := 0;
    var never := 0;
    var events := 0;
    var k := 0;
    while k < |members|
      invariant 0 <= k <= |members|
      invariant events == SumOf(members[..k], MemberLogins)
      invariant never == CountWhere(members[..k], NeverFn())
      invariant active == CountWhere(members[..k], ActiveFn(thirtyDaysAgo))
    {
      var m := members[k];
      assert members[..k + 1] == members[..k] + [m];
      SumOfAppend(members[..k], m, MemberLogins);
      CountWhereAppend(members[..k], m, NeverFn());
      CountWhereAppend(members[..k], m, ActiveFn(thirtyDaysAgo));
      events := events + m.loginCount;
      if !Present(m.lastLoginTs) {
        never := never + 1;
      }
      if Present(m.lastLoginTs) && m.lastLoginTs.value >= thirtyDaysAgo {
        active := active + 1;
      }
      k := k + 1;
    }
    assert members[..k] == members;
    totals := Totals(|members|, active, never, events);
  }

  /** No member is both active and never logged in: the two counts fit in the total. */
  lemma TotalsBounded(members: seq<Member>, now: int)
    ensures var t := TotalsOf(members, now);
      0 <= t.active30 && 0 <= t.neverLoggedIn && t.active30 + t.neverLoggedIn <= t.totalMembers
  {
    CountDisjoint(members, ActiveFn(now - 30 * DaySeconds), NeverFn());
  }

  /** Over get_members' records, "never logged in" means exactly "no timestamp". */
  lemma NeverMeansUnset(items: seq<UserItem>, memberPressLoaded: bool, parse: string -> Option<int>, now: int)
    ensures var ms := MembersOf(items, memberPressLoaded, parse);
      TotalsOf(ms, now).neverLoggedIn == CountWhere(ms, (m: Member) => m.lastLoginTs.None?)
  {
    var ms := MembersOf(items, memberPressLoaded, parse);
    MembersTimestampsNonZero(items, memberPressLoaded, parse);
    CountWhereSame(ms, NeverFn(), (m: Member) => m.lastLoginTs.None?);
  }

  /** The later the clock, the fewer members count as active. */
  lemma ActiveMonotone(members: seq<Member>, now: int, later: int)
    requires now <= later
    ensures TotalsOf(members, later).active30 <= TotalsOf(members, now).active30
  {
    CountWhereImplies(members, ActiveFn(later - 30 * DaySeconds), ActiveFn(now - 30 * DaySeconds));
  }
}
