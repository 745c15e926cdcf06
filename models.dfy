/** Record shapes shared by the worker's database, mail and API layers, and the
    forwarding address derived from a user's forward key. */
module Models {
  import opened Wrappers
  import opened Text

  /** A calendar date (chrono `NaiveDate`), the order date read from a payout PDF. */
  datatype Date = Date(year: int, month: int, day: int)

  /** Money in integer cents; the worker's `f64` amounts are not modelled as floats. */
  type Cents = int

  /** A row of the users table. `created` is set by the database when the row is inserted. */
  datatype User = User(
    id: int,
    googleId: string,
    email: string,
    sheetId: Option<string>,
    forwardKey: string,
    paid: bool,
    created: Millis)
  {
    /** `User::forwarding_address`: the mailbox that routes mail to this user. */
    function ForwardingAddress(): (r: string)
      ensures |r| == |forwardKey| + 21
      ensures StartsWith(r, ForwardPrefix)
      ensures r[|ForwardPrefix|..|ForwardPrefix| + |forwardKey|] == forwardKey
      ensures r[|r| - 16..] == "@" + ForwardDomain
    {
      ForwardPrefix + forwardKey + "@" + ForwardDomain
    }
  }

  const ForwardPrefix: string := "user-"
  const ForwardDomain: string := "driversheet.com"

  /** The body of `POST /api/users`. */
  datatype UserUpsert = UserUpsert(googleId: string, email: string, sheetId: Option<string>)

  /** Amounts read from one payout: gross and tips in cents, mileage in hundredths of a mile. */
  datatype NewLogEntry = NewLogEntry(
    userId: int,
    orderDate: Date,
    gross: Cents,
    tips: Cents,
    mileage: Option<int>)

  /** A row of the logs table; `id` and `parsedAt` are assigned by the database. */
  datatype LogEntry = LogEntry(
    id: int,
    userId: int,
    orderDate: Date,
    gross: Cents,
    tips: Cents,
    mileage: Option<int>,
    parsedAt: Millis)

  /** A JSON value, as `serde_json` writes it and the browser's `response.json()` reads it
      (numbers restricted to the integers the model uses). */
  datatype Json = JNum(n: int) | JStr(s: string) | JBool(b: bool) | JNull

  /** The fields of a billing webhook the worker reads: `meta.event_name` and
      `data.attributes.customer_email`. */
  datatype LemonWebhook = LemonWebhook(eventName: string, customerEmail: string)

  /** The shape of keys that `generate_forward_key` produces: eight characters of `[a-z0-9]`. */
  predicate IsForwardKey(k: string) {
    |k| == 8 && forall i :: 0 <= i < |k| ==> IsLowerAlnum(k[i])
  }

  /** Two users with the same forwarding address have the same forward key. */
  lemma ForwardingAddressInjective(u: User, v: User)
    requires u.ForwardingAddress() == v.ForwardingAddress()
    ensures u.forwardKey == v.forwardKey
  {
    var a := u.ForwardingAddress();
    assert |u.forwardKey| == |v.forwardKey|;
    assert u.forwardKey == a[5..5 + |u.forwardKey|];
  }
}
