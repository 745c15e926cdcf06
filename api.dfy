/** The worker's HTTP surface: the sheet-ID normalisation applied to `POST /api/users`, the
    user record it answers with, the paywall in front of `GET /api/users/:id/logs`, the
    signed billing webhook, and the mapping of errors to HTTP statuses. */
module Api {
  import opened Wrappers
  import opened Text
  import opened Models
  import opened Db
  import opened Mail

  // ---------------------------------------------------------------- sheet IDs

  const SheetMarker: string := "/spreadsheets/d/"

  /** `normalize_sheet_id`: from a Google Sheets URL keep the text after the first
      `/spreadsheets/d/`, up to the first `/` of that text, or failing one, up to its first
      `?`; input without the marker is kept whole. */
  function NormalizeSheetId(input: string): (r: string)
    ensures IndexOf(input, SheetMarker).None? ==> r == input
    ensures IndexOf(input, SheetMarker).Some? ==>
      var tail := input[IndexOf(input, SheetMarker).value + |SheetMarker|..];
      && StartsWith(tail, r) && '/' !in r
      && ('/' in tail ==> tail[|r|] == '/')
      && ('/' !in tail ==> '?' !in r && (r == tail || tail[|r|] == '?'))
  {
    match IndexOf(input, SheetMarker)
    case None => input
    case Some(idx) =>
      var tail := input[idx + |SheetMarker|..];
      match IndexOfChar(tail, '/')
      case Some(end) => tail[..end]
      case None =>
        match IndexOfChar(tail, '?')
        case Some(end) => tail[..end]
        case None => tail
  }

  /** A string with no `/` does not contain the marker. */
  lemma NoSlashNoMarker(s: string)
    requires '/' !in s
    ensures IndexOf(s, SheetMarker).None?
  {
    forall j: int ensures !OccursAt(s, SheetMarker, j) {
      if 0 <= j && j + |SheetMarker| <= |s| {
        assert s[j..j + |SheetMarker|][0] == s[j] && s[j] in s;
        assert SheetMarker[0] == '/';
      }
    }
  }

  /** Normalising an already normalised ID changes nothing. */
  lemma NormalizeSheetIdIdempotent(input: string)
    ensures NormalizeSheetId(NormalizeSheetId(input)) == NormalizeSheetId(input)
  {
    if IndexOf(input, SheetMarker).Some? {
      NoSlashNoMarker(NormalizeSheetId(input));
    }
  }

  /** `normalize_sheet`: the sheet ID, when present, is trimmed and then normalised; the
      other fields pass through. */
  function NormalizeSheet(payload: UserUpsert): (r: UserUpsert)
    ensures r.googleId == payload.googleId && r.email == payload.email
    ensures r.sheetId.Some? <==> payload.sheetId.Some?
    ensures payload.sheetId.Some? ==> '/' !in r.sheetId.value || IndexOf(Trim(payload.sheetId.value), SheetMarker).None?
  {
    match payload.sheetId
    case None => payload
    case Some(id) => payload.(sheetId := Some(NormalizeSheetId(Trim(id))))
  }

  /** A bare document ID (no surrounding whitespace, no marker) is stored unchanged. */
  lemma NormalizeSheetKeepsBareId(payload: UserUpsert, id: string)
    requires payload.sheetId == Some(id)
    requires id == [] || (!IsWhitespace(id[0]) && !IsWhitespace(id[|id| - 1]))
    requires '/' !in id
    ensures NormalizeSheet(payload) == payload
  {
    TrimKeeps(id);
    NoSlashNoMarker(id);
  }

  // ---------------------------------------------------------------- user responses

  /** The trial test both handlers use: more than seven days since the account was created. */
  predicate TrialExpired(created: Millis, now: Millis) {
    now - created > 7 * DAY_MS
  }

  datatype UserResponse = UserResponse(
    id: int,
    googleId: string,
    email: string,
    sheetId: Option<string>,
    forwardAddress: string,
    paid: bool,
    created: Millis,
    trialExpired: bool,
    lemonPaymentUrl: string)

  /** `UserResponse::from`: the user's columns, the forwarding address, the trial flag at
      `now` (computed without regard to `paid`) and the configured payment link. */
  function UserResponseFrom(user: User, now: Millis, paymentUrl: string): (r: UserResponse)
    ensures r.id == user.id && r.googleId == user.googleId && r.email == user.email
    ensures r.sheetId == user.sheetId && r.paid == user.paid && r.created == user.created
    ensures r.lemonPaymentUrl == paymentUrl
    ensures r.trialExpired <==> now > user.created + 7 * DAY_MS
    ensures r.forwardAddress == user.ForwardingAddress()
    ensures IsForwardKey(user.forwardKey) ==> ParseForwardKey(r.forwardAddress) == Some(user.forwardKey)
  {
    assert IsForwardKey(user.forwardKey) ==> ParseForwardKey(user.ForwardingAddress()) == Some(user.forwardKey) by {
      if IsForwardKey(user.forwardKey) {
        ParseGeneratedAddress(user);
      }
    }
    UserResponse(user.id, user.googleId, user.email, user.sheetId, user.ForwardingAddress(),
                 user.paid, user.created, TrialExpired(user.created, now), paymentUrl)
  }

  /** The JSON object of a `UserResponse`, with the keys chosen for the Google id and the
      sheet ID; every other field is written under the name the browser reads. `showTime`
      renders `created` as chrono prints a `NaiveDateTime`. */
  function ResponseObject(r: UserResponse, showTime: Millis -> string, googleIdKey: string, sheetIdKey: string)
    : map<string, Json>
  {
    map["id" := JNum(r.id),
        googleIdKey := JStr(r.googleId),
        "email" := JStr(r.email),
        sheetIdKey := (if r.sheetId.Some? then JStr(r.sheetId.value) else JNull),
        "forwardAddress" := JStr(r.forwardAddress),
        "paid" := JBool(r.paid),
        "created" := JStr(showTime(r.created)),
        "trialExpired" := JBool(r.trialExpired),
        "lemonPaymentUrl" := JStr(r.lemonPaymentUrl)]
  }

  /** `serde::Serialize` of `UserResponse` as written: only `forward_address`,
      `trial_expired` and `lemon_payment_url` are renamed, so the Google id and the sheet ID
      go out under `google_id` and `sheet_id`. */
  function UserResponseJson(r: UserResponse, showTime: Millis -> string): (o: map<string, Json>)
    ensures "google_id" in o && "sheet_id" in o
    ensures "googleId" !in o && "sheetId" !in o
    ensures o["sheet_id"] == (if r.sheetId.Some? then JStr(r.sheetId.value) else JNull)
  {
    ResponseObject(r, showTime, "google_id", "sheet_id")
  }

  /** The serialisation with `google_id` and `sheet_id` renamed as `User` and `UserUpsert`
      rename them, so that every key is the one the web client reads. */
  function UserResponseJsonRenamed(r: UserResponse, showTime: Millis -> string): (o: map<string, Json>)
    ensures "googleId" in o && "sheetId" in o
    ensures "google_id" !in o && "sheet_id" !in o
    ensures o["googleId"] == JStr(r.googleId)
    ensures o["sheetId"] == (if r.sheetId.Some? then JStr(r.sheetId.value) else JNull)
  {
    ResponseObject(r, showTime, "googleId", "sheetId")
  }

  /** The trial flag never switches back off as time passes. */
  lemma TrialExpiredStays(user: User, now: Millis, later: Millis, url: string)
    requires now <= later && UserResponseFrom(user, now, url).trialExpired
    ensures UserResponseFrom(user, later, url).trialExpired
  {
  }

  // ---------------------------------------------------------------- errors

  datatype ApiError = Unauthorized | NotFound | PaymentRequired | DatabaseError | BadRequest | BadUtf8 | Other
  {
    /** `ApiError::into_response`: the status code and body text. */
    function IntoResponse(): (r: (int, string))
      ensures r.0 == 402 <==> this == PaymentRequired
      ensures r.0 == 401 <==> this == Unauthorized
      ensures r.0 == 404 <==> this == NotFound
      ensures r.0 == 400 <==> this == BadRequest || this == BadUtf8
      ensures r.0 == 500 <==> this == DatabaseError || this == Other
    {
      match this
      case Unauthorized => (401, "unauthorized")
      case NotFound => (404, "not found")
      case PaymentRequired => (402, "payment required")
      case DatabaseError => (500, "database error")
      case BadRequest => (400, "invalid body")
      case BadUtf8 => (400, "invalid utf8")
      case Other => (500, "server error")
    }
  }

  /** Different errors give different responses: the body text tells apart the errors that
      share a status. */
  lemma ResponsesDistinguishErrors(a: ApiError, b: ApiError)
    requires a.IntoResponse() == b.IntoResponse()
    ensures a == b
  {
  }

  // ---------------------------------------------------------------- the logs route

  /** `list_logs`: an unknown id is "not found"; an unpaid user past the trial gets "payment
      required"; anyone else receives their thirty newest log entries. */
  function ListLogs(db: Database, id: int, now: Millis): (r: Result<seq<LogEntry>, ApiError>)
    reads db
    ensures r.Err? ==> r.error == NotFound || r.error == PaymentRequired
    ensures r == Err(NotFound) <==> forall u :: u in db.users ==> u.id != id
    ensures r.Ok? ==> r.value == db.RecentLogs(id, 30)
    ensures r.Ok? ==> |r.value| <= 30 && NewestFirst(r.value)
    ensures r.Ok? ==> forall e :: e in r.value ==> e in db.logs && e.userId == id
    ensures r.Ok? ==> forall e, x :: e in db.logs && e.userId == id && e !in r.value && x in r.value ==>
      e.parsedAt <= x.parsedAt
  {
    match db.UserById(id)
    case None => Err(NotFound)
    case Some(user) =>
      if !user.paid && TrialExpired(user.created, now) then Err(PaymentRequired)
      else Ok(db.RecentLogs(id, 30))
  }

  /** With well-formed tables the paywall depends only on the user's own row: a paying user,
      or one still inside the trial, gets all of their entries up to thirty; an unpaid user
      past the trial is refused. */
  lemma ListLogsPaywall(db: Database, u: User, now: Millis)
    requires db.Valid() && u in db.users
    ensures var r := ListLogs(db, u.id, now);
      && (r == Err(PaymentRequired) <==> !u.paid && now - u.created > 7 * DAY_MS)
      && (r.Ok? ==> |r.value| == if |LogsOf(db.logs, u.id)| < 30 then |LogsOf(db.logs, u.id)| else 30)
  {
    var found := db.UserById(u.id).value;
    var i :| 0 <= i < |db.users| && db.users[i] == u;
    var j :| 0 <= j < |db.users| && db.users[j] == found;
    assert !(i < j) && !(j < i);
  }

  // ---------------------------------------------------------------- the billing webhook

  const InvoicePaid: string := "invoice.paid"

  /** The checks `lemon_webhook` makes, in order, and the e-mail address to mark as paid, if
      any: a missing `X-Signature` header or a signature other than the hex HMAC-SHA256 of
      the body (`digest`) is "unauthorized", a body that is not UTF-8 is "invalid utf8", a
      body that is not a webhook is "invalid body"; only `invoice.paid` marks anyone. */
  function WebhookDecision(signature: Option<string>, body: seq<byte>,
                           decodeUtf8: seq<byte> -> Option<string>,
                           digest: string -> string,
                           parseJson: string -> Option<LemonWebhook>): (r: Result<Option<string>, ApiError>)
    ensures signature.None? ==> r == Err(Unauthorized)
    ensures r.Ok? ==> decodeUtf8(body).Some? && signature == Some(digest(decodeUtf8(body).value))
    ensures r.Ok? && r.value.Some? ==>
      exists w :: parseJson(decodeUtf8(body).value) == Some(w) && w.eventName == InvoicePaid
        && r.value.value == w.customerEmail
    ensures r.Err? ==> r.error in {Unauthorized, BadUtf8, BadRequest}
    ensures r == Err(Unauthorized) <==>
      signature.None? || (decodeUtf8(body).Some? && signature.value != digest(decodeUtf8(body).value))
    ensures r == Err(BadUtf8) <==> signature.Some? && decodeUtf8(body).None?
    ensures r == Err(BadRequest) <==>
      signature.Some? && decodeUtf8(body).Some? && signature.value == digest(decodeUtf8(body).value)
      && parseJson(decodeUtf8(body).value).None?
    ensures (signature.Some? && decodeUtf8(body).Some? && signature.value == digest(decodeUtf8(body).value)
             && parseJson(decodeUtf8(body).value).Some?) ==>
      var w := parseJson(decodeUtf8(body).value).value;
      r == Ok(if w.eventName == InvoicePaid then Some(w.customerEmail) else None)
  {
    match signature
    case None => Err(Unauthorized)
    case Some(sig) =>
      match decodeUtf8(body)
      case None => Err(BadUtf8)
      case Some(payload) =>
        if sig != digest(payload) then Err(Unauthorized)
        else match parseJson(payload)
          case None => Err(BadRequest)
          case Some(w) => Ok(if w.eventName == InvoicePaid then Some(w.customerEmail) else None)
  }

  /** A forged signature never marks anyone as paid, whatever the body says. */
  lemma ForgedWebhookRejected(sig: string, body: seq<byte>,
                              decodeUtf8: seq<byte> -> Option<string>,
                              digest: string -> string,
                              parseJson: string -> Option<LemonWebhook>)
    requires decodeUtf8(body).Some? && sig != digest(decodeUtf8(body).value)
    ensures WebhookDecision(Some(sig), body, decodeUtf8, digest, parseJson) == Err(Unauthorized)
  {
  }

  /** `lemon_webhook`: applies the decision to the users table and answers with it. */
  method LemonWebhookRoute(db: Database, signature: Option<string>, body: seq<byte>,
                           decodeUtf8: seq<byte> -> Option<string>,
                           digest: string -> string,
                           parseJson: string -> Option<LemonWebhook>) returns (r: Result<(), ApiError>)
    requires db.Valid()
    modifies db
    ensures db.Valid()
    ensures var d := WebhookDecision(signature, body, decodeUtf8, digest, parseJson);
      && (r.Ok? <==> d.Ok?)
      && (d.Err? ==> r == Err(d.error))
      && db.users == (if d.Ok? && d.value.Some? then MarkedPaid(old(db.users), d.value.value) else old(db.users))
    ensures db.logs == old(db.logs)
  {
    var d := WebhookDecision(signature, body, decodeUtf8, digest, parseJson);
    match d {
      case Err(e) =>
        r := Err(e);
      case Ok(email) =>
        if email.Some? {
          db.MarkPaid(email.value);
        }
        r := Ok(());
    }
  }

  // ---------------------------------------------------------------- the users route

  /** `upsert_user`: normalises the sheet ID, upserts the row and answers with its
      response record. */
  method UpsertUserRoute(db: Database, payload: UserUpsert, now: Millis, samples: seq<seq<char>>,
                         paymentUrl: string) returns (resp: UserResponse)
    requires db.Valid()
    requires RowWhere(db.users, ByGoogleId(payload.googleId)).None? ==> CanDrawFreshKey(db.users, samples)
    modifies db
    ensures db.Valid() && db.logs == old(db.logs)
    ensures exists u :: (u in db.users &&
      (db.users, u) == Upserted(old(db.users), NormalizeSheet(payload), u.forwardKey, old(db.nextUserId), now) &&
      resp == UserResponseFrom(u, now, paymentUrl))
    ensures resp.googleId == payload.googleId && resp.email == payload.email
  {
    var normalized := NormalizeSheet(payload);
    var user := db.UpsertUser(normalized, now, samples);
    resp := UserResponseFrom(user, now, paymentUrl);
  }
}
