/**
 * WordPress and MemberPress values as the dashboards receive them. The database,
 * user meta and MemberPress objects are not modelled as services: each reading of
 * them is a field of these records, already classified the way the PHP code looks
 * at it (empty(), is_numeric(), is_object(), isset()).
 */
module WpValues {
  import opened Wrappers

  /**
   * A user-meta value as PHP sees it: empty() holds (null, "", "0", 0, false), it is
   * numeric (carried already cast with (int)), or it is some other text.
   */
  datatype RawMeta = Blank | Numeric(value: int) | Other(text: string)

  /** PHP empty() on a string: the empty string and "0". */
  predicate PhpEmptyString(s: string)
  {
    s == "" || s == "0"
  }

  /** PHP empty() on a value that is null or a string. */
  predicate PhpEmpty(s: Option<string>)
  {
    s.None? || PhpEmptyString(s.value)
  }

  /** A timestamp that is set: neither null nor 0 (PHP empty() is false on it). */
  predicate Present(ts: Option<int>)
  {
    ts.Some? && ts.value != 0
  }

  /** A date shown to the user: a timestamp rendered by date_i18n/gmdate, or text kept as it was. */
  datatype Shown = Formatted(ts: int) | Verbatim(text: string)

  /** A MemberPress product: its ID and post_title properties, each possibly unset. */
  datatype Product = Product(id: Option<int>, title: Option<string>)

  /**
   * One element of active_product_subscriptions('objects'): not an object at all, or
   * an object with what product() returns (None when the method is missing or the
   * result is falsy) and its `id`, `ID`, `status` and `created_at` properties.
   */
  datatype SubscriptionItem =
    | NotAnObject
    | Subscription(product: Option<Product>, lowerId: Option<int>, upperId: Option<int>,
                   status: Option<string>, createdAt: Option<string>)

  /**
   * A WordPress user with the meta the dashboards read: `loginCount` is the login
   * counter meta after (int), `lastLogin` the last-login meta, `subscriptions` what
   * MemberPress reports (None when it is not an array), `company` and `location`
   * the two label meta values cast to string.
   */
  datatype WpUser = WpUser(
    id: int,
    login: string,
    email: string,
    displayName: string,
    firstName: string,
    lastName: string,
    registered: string,
    roles: seq<string>,
    loginCount: int,
    lastLogin: RawMeta,
    subscriptions: Option<seq<SubscriptionItem>>,
    company: string,
    location: string)

  /** An element of a result list that is expected to hold users: a WP_User or anything else. */
  datatype UserItem = AUser(user: WpUser) | NotAUser
}
