/** The web app's authentication glue: the required-environment check, the `jwt` callback
    that merges session updates into the token and syncs the user with the worker, and the
    `session` callback that projects the token onto `session.user`. */
module Auth {
  import opened Wrappers
  import opened Models
  import Api

  /** A JavaScript value that may be `undefined` or `null`. */
  datatype Js<+T> = Undefined | Null | Val(v: T)

  /** JavaScript `a ?? b`: `b` when `a` is `null` or `undefined`. */
  function Coalesce<T>(a: Js<T>, b: Js<T>): (r: Js<T>)
    ensures a.Val? ==> r == a
    ensures !a.Val? ==> r == b
  {
    if a.Val? then a else b
  }

  /** `x ?? d` for a plain default `d`. */
  function OrElse<T>(a: Js<T>, d: T): (r: T)
    ensures a.Val? ==> r == a.v
    ensures !a.Val? ==> r == d
  {
    if a.Val? then a.v else d
  }

  // ---------------------------------------------------------------- environment

  /** `requiredEnv`: the variable's value, or the error `"<name> is required"` when it is
      missing or empty. */
  function RequiredEnv(env: map<string, string>, name: string): (r: Result<string, string>)
    ensures r.Ok? <==> name in env && env[name] != ""
    ensures r.Ok? ==> r.value == env[name]
    ensures r.Err? ==> r.error == name + " is required"
  {
    if name !in env || env[name] == "" then Err(name + " is required") else Ok(env[name])
  }

  // ---------------------------------------------------------------- tokens

  /** The fields of the NextAuth JWT the callbacks read or write (`sub` is the provider's
      subject, set by NextAuth itself). */
  datatype TokenView = TokenView(
    sub: Js<string>,
    userId: Js<int>,
    googleId: Js<string>,
    email: Js<string>,
    forwardAddress: Js<string>,
    sheetId: Js<string>,
    paid: Js<bool>,
    trialExpired: Js<bool>,
    lemonPaymentUrl: Js<string>,
    created: Js<string>)

  /** The data passed with an `update` trigger. */
  datatype Patch = Patch(
    sheetId: Js<string>,
    forwardAddress: Js<string>,
    paid: Js<bool>,
    trialExpired: Js<bool>,
    lemonPaymentUrl: Js<string>)

  /** The `BackendUser` that `upsertUser` resolves to, as the browser sees it: each
      property is read from the parsed JSON body, `undefined` where the key is absent. */
  datatype BackendUser = BackendUser(
    id: Js<int>,
    googleId: Js<string>,
    email: Js<string>,
    sheetId: Js<string>,
    forwardAddress: Js<string>,
    paid: Js<bool>,
    created: Js<string>,
    trialExpired: Js<bool>,
    lemonPaymentUrl: Js<string>)

  /** Reading a property of a parsed JSON object: `undefined` for a missing key, `null` for
      JSON `null`. A value of another JSON type than the interface declares is read as
      `undefined`; the worker never sends one. */
  function NumProp(o: map<string, Json>, k: string): Js<int> {
    if k !in o then Undefined
    else match o[k] case JNum(n) => Val(n) case JNull => Null case _ => Undefined
  }

  function StrProp(o: map<string, Json>, k: string): Js<string> {
    if k !in o then Undefined
    else match o[k] case JStr(x) => Val(x) case JNull => Null case _ => Undefined
  }

  function BoolProp(o: map<string, Json>, k: string): Js<bool> {
    if k !in o then Undefined
    else match o[k] case JBool(b) => Val(b) case JNull => Null case _ => Undefined
  }

  /** `response.json() as Promise<BackendUser>`: the properties the web client reads, under
      the names of its `BackendUser` interface. */
  function ReadBackendUser(o: map<string, Json>): BackendUser {
    BackendUser(NumProp(o, "id"), StrProp(o, "googleId"), StrProp(o, "email"), StrProp(o, "sheetId"),
                StrProp(o, "forwardAddress"), BoolProp(o, "paid"), StrProp(o, "created"),
                BoolProp(o, "trialExpired"), StrProp(o, "lemonPaymentUrl"))
  }

  /** A sheet ID as JSON carries it: a string, or `null` when there is none. */
  function SheetIdJs(sheetId: Option<string>): Js<string> {
    if sheetId.Some? then Val(sheetId.value) else Null
  }

  /** What the web client reads from the worker's answer as the worker writes it: every
      field but the Google id and the sheet ID, which it finds `undefined`. */
  lemma WorkerAnswerAsRead(r: Api.UserResponse, showTime: Millis -> string)
    ensures ReadBackendUser(Api.UserResponseJson(r, showTime)) ==
      BackendUser(Val(r.id), Undefined, Val(r.email), Undefined, Val(r.forwardAddress), Val(r.paid),
                  Val(showTime(r.created)), Val(r.trialExpired), Val(r.lemonPaymentUrl))
  {
    var o := Api.UserResponseJson(r, showTime);
    assert o == Api.ResponseObject(r, showTime, "google_id", "sheet_id");
    assert "googleId" !in o && "sheetId" !in o;
  }

  /** With the two keys renamed, the web client reads every field of the answer. */
  lemma RenamedAnswerAsRead(r: Api.UserResponse, showTime: Millis -> string)
    ensures ReadBackendUser(Api.UserResponseJsonRenamed(r, showTime)) ==
      BackendUser(Val(r.id), Val(r.googleId), Val(r.email), SheetIdJs(r.sheetId), Val(r.forwardAddress),
                  Val(r.paid), Val(showTime(r.created)), Val(r.trialExpired), Val(r.lemonPaymentUrl))
  {
    var o := Api.UserResponseJsonRenamed(r, showTime);
    assert o == Api.ResponseObject(r, showTime, "googleId", "sheetId");
  }

  datatype Profile = Profile(sub: Js<string>, email: Js<string>)

  datatype Trigger = SignIn | SignUp | SignOut | Update | NoTrigger

  /** The `update` merge: each patched field takes the patch value when it is neither
      `null` nor `undefined`, else the token's own value, else its default. */
  function Merged(t: TokenView, p: Patch): (r: TokenView)
    ensures r.sub == t.sub && r.userId == t.userId && r.googleId == t.googleId
    ensures r.email == t.email && r.created == t.created
    ensures r.sheetId == (if p.sheetId.Val? then p.sheetId else if t.sheetId.Val? then t.sheetId else Null)
    ensures r.forwardAddress == (if p.forwardAddress.Val? then p.forwardAddress else t.forwardAddress)
    ensures r.paid.Val? && r.trialExpired.Val? && r.lemonPaymentUrl.Val?
    ensures r.paid.v == (if p.paid.Val? then p.paid.v else if t.paid.Val? then t.paid.v else false)
    ensures r.trialExpired.v ==
      (if p.trialExpired.Val? then p.trialExpired.v else if t.trialExpired.Val? then t.trialExpired.v else false)
    ensures r.lemonPaymentUrl.v ==
      (if p.lemonPaymentUrl.Val? then p.lemonPaymentUrl.v else if t.lemonPaymentUrl.Val? then t.lemonPaymentUrl.v else "")
  {
    t.(sheetId := Coalesce(Coalesce(p.sheetId, t.sheetId), Null),
       forwardAddress := Coalesce(p.forwardAddress, t.forwardAddress),
       paid := Coalesce(Coalesce(p.paid, t.paid), Val(false)),
       trialExpired := Coalesce(Coalesce(p.trialExpired, t.trialExpired), Val(false)),
       lemonPaymentUrl := Coalesce(Coalesce(p.lemonPaymentUrl, t.lemonPaymentUrl), Val("")))
  }

  /** Because `??` treats `null` as absent, an update cannot clear a sheet ID the token
      holds: patching with `null` keeps the old one. */
  lemma UpdateCannotClearSheetId(t: TokenView, p: Patch)
    requires t.sheetId.Val? && !p.sheetId.Val?
    ensures Merged(t, p).sheetId == t.sheetId
  {
  }

  /** Merging the same patch twice is the same as merging it once. */
  lemma MergeIdempotent(t: TokenView, p: Patch)
    ensures Merged(Merged(t, p), p) == Merged(t, p)
  {
  }

  /** `shouldSync`: a sign-in with an account, or a token not yet linked to a backend user. */
  predicate ShouldSync(account: bool, t: TokenView) {
    account || t.userId == Undefined
  }

  /** The identity sent to the backend: the profile's, else the token's, else empty. */
  function ResolvedGoogleId(profile: Option<Profile>, t: TokenView): (r: string)
    ensures profile.Some? && profile.value.sub.Val? ==> r == profile.value.sub.v
    ensures (profile.None? || !profile.value.sub.Val?) ==> r == OrElse(t.sub, "")
  {
    OrElse(Coalesce(if profile.Some? then profile.value.sub else Undefined, t.sub), "")
  }

  function ResolvedEmail(profile: Option<Profile>, t: TokenView): (r: string)
    ensures profile.Some? && profile.value.email.Val? ==> r == profile.value.email.v
    ensures (profile.None? || !profile.value.email.Val?) ==> r == OrElse(t.email, "")
  {
    OrElse(Coalesce(if profile.Some? then profile.value.email else Undefined, t.email), "")
  }

  /** A successful sync overwrites the nine cached fields with what was read from the
      backend's answer, `undefined` values included. */
  function Synced(t: TokenView, b: BackendUser): (r: TokenView)
    ensures r.sub == t.sub
    ensures r.userId == b.id && r.googleId == b.googleId && r.email == b.email
    ensures r.forwardAddress == b.forwardAddress && r.sheetId == b.sheetId
    ensures r.paid == b.paid && r.trialExpired == b.trialExpired
    ensures r.lemonPaymentUrl == b.lemonPaymentUrl && r.created == b.created
  {
    TokenView(t.sub, b.id, b.googleId, b.email, b.forwardAddress, b.sheetId,
              b.paid, b.trialExpired, b.lemonPaymentUrl, b.created)
  }

  /** The token the `jwt` callback returns. `upsert` stands for `upsertUser`, `None`
      meaning that it threw. */
  function JwtResult(t: TokenView, account: bool, profile: Option<Profile>, trigger: Trigger,
                     patch: Option<Patch>, upsert: (string, string) -> Option<BackendUser>): (r: TokenView)
    ensures r.sub == t.sub
    ensures var m := if trigger == Update && patch.Some? then Merged(t, patch.value) else t;
      var g, e := ResolvedGoogleId(profile, t), ResolvedEmail(profile, t);
      r == if (account || t.userId == Undefined) && g != "" && e != "" && upsert(g, e).Some?
           then Synced(m, upsert(g, e).value) else m
  {
    var m := if trigger == Update && patch.Some? then Merged(t, patch.value) else t;
    if !ShouldSync(account, m) then m
    else
      var googleId := ResolvedGoogleId(profile, m);
      var email := ResolvedEmail(profile, m);
      if googleId == "" || email == "" then m
      else match upsert(googleId, email)
        case None => m
        case Some(b) => Synced(m, b)
  }

  /** A token already linked to a user is never synced without an account: the callback
      then only applies the update, whatever the backend would answer. */
  lemma NoSyncForLinkedToken(t: TokenView, profile: Option<Profile>, trigger: Trigger,
                             patch: Option<Patch>, upsert: (string, string) -> Option<BackendUser>)
    requires t.userId != Undefined
    ensures JwtResult(t, false, profile, trigger, patch, upsert) ==
      if trigger == Update && patch.Some? then Merged(t, patch.value) else t
  {
  }

  /** Without a non-empty identity the token comes back unsynced, whatever the trigger:
      only the update applies. */
  lemma NoSyncWithoutIdentity(t: TokenView, account: bool, profile: Option<Profile>, trigger: Trigger,
                              patch: Option<Patch>, upsert: (string, string) -> Option<BackendUser>)
    requires ResolvedGoogleId(profile, t) == "" || ResolvedEmail(profile, t) == ""
    ensures JwtResult(t, account, profile, trigger, patch, upsert) ==
      if trigger == Update && patch.Some? then Merged(t, patch.value) else t
  {
  }

  /** A plain refresh of a token not yet linked to a user, say one whose sync failed at
      sign-in, tries the backend again: it caches the user on success and keeps the token
      otherwise. */
  lemma RefreshOfUnlinkedTokenSyncs(t: TokenView, profile: Option<Profile>,
                                    upsert: (string, string) -> Option<BackendUser>)
    requires t.userId == Undefined
    requires ResolvedGoogleId(profile, t) != "" && ResolvedEmail(profile, t) != ""
    ensures var r := JwtResult(t, false, profile, NoTrigger, None, upsert);
      var u := upsert(ResolvedGoogleId(profile, t), ResolvedEmail(profile, t));
      && (u.Some? ==> r == Synced(t, u.value))
      && (u.None? ==> r == t)
  {
  }

  /** A sign-in whose upsert succeeds caches exactly the backend's user; one whose upsert
      fails leaves the token as it was. */
  lemma SignInSync(t: TokenView, profile: Option<Profile>, upsert: (string, string) -> Option<BackendUser>)
    requires ResolvedGoogleId(profile, t) != "" && ResolvedEmail(profile, t) != ""
    ensures var r := JwtResult(t, true, profile, SignIn, None, upsert);
      var u := upsert(ResolvedGoogleId(profile, t), ResolvedEmail(profile, t));
      && (u.Some? ==> r == Synced(t, u.value) && r.userId == u.value.id)
      && (u.None? ==> r == t)
  {
  }

  /** An `update` on a token not yet linked to a user also reaches the backend, and a
      successful sync then overwrites the fields the patch had just set. */
  lemma UpdateOfUnlinkedTokenSyncs(t: TokenView, p: Patch, profile: Option<Profile>,
                                   upsert: (string, string) -> Option<BackendUser>)
    requires t.userId == Undefined
    requires ResolvedGoogleId(profile, t) != "" && ResolvedEmail(profile, t) != ""
    requires upsert(ResolvedGoogleId(profile, t), ResolvedEmail(profile, t)).Some?
    ensures JwtResult(t, false, profile, Update, Some(p), upsert) ==
      Synced(Merged(t, p), upsert(ResolvedGoogleId(profile, t), ResolvedEmail(profile, t)).value)
  {
    var m := Merged(t, p);
    assert ResolvedGoogleId(profile, m) == ResolvedGoogleId(profile, t);
    assert ResolvedEmail(profile, m) == ResolvedEmail(profile, t);
  }

  /** The mutable NextAuth token. */
  class Jwt {
    var sub: Js<string>
    var userId: Js<int>
    var googleId: Js<string>
    var email: Js<string>
    var forwardAddress: Js<string>
    var sheetId: Js<string>
    var paid: Js<bool>
    var trialExpired: Js<bool>
    var lemonPaymentUrl: Js<string>
    var created: Js<string>

    function Snapshot(): TokenView
      reads this
    {
      TokenView(sub, userId, googleId, email, forwardAddress, sheetId, paid, trialExpired, lemonPaymentUrl, created)
    }

    constructor (t: TokenView)
      ensures Snapshot() == t
    {
      sub, userId, googleId, email, forwardAddress := t.sub, t.userId, t.googleId, t.email, t.forwardAddress;
      sheetId, paid, trialExpired, lemonPaymentUrl, created := t.sheetId, t.paid, t.trialExpired, t.lemonPaymentUrl, t.created;
    }

    /** The `update` branch of `callbacks.jwt`. */
    method ApplyUpdate(data: Patch)
      modifies this
      ensures Snapshot() == Merged(old(Snapshot()), data)
    {
      sheetId := Coalesce(Coalesce(data.sheetId, sheetId), Null);
      forwardAddress := Coalesce(data.forwardAddress, forwardAddress);
      paid := Coalesce(Coalesce(data.paid, paid), Val(false));
      trialExpired := Coalesce(Coalesce(data.trialExpired, trialExpired), Val(false));
      lemonPaymentUrl := Coalesce(Coalesce(data.lemonPaymentUrl, lemonPaymentUrl), Val(""));
    }

    /** The overwrite after a successful `upsertUser`. */
    method CacheBackendUser(b: BackendUser)
      modifies this
      ensures Snapshot() == Synced(old(Snapshot()), b)
    {
      userId := b.id;
      googleId := b.googleId;
      email := b.email;
      forwardAddress := b.forwardAddress;
      sheetId := b.sheetId;
      paid := b.paid;
      trialExpired := b.trialExpired;
      lemonPaymentUrl := b.lemonPaymentUrl;
      created := b.created;
    }

    /** `callbacks.jwt`: updates the token in place, as `JwtResult` describes. */
    method JwtCallback(account: bool, profile: Option<Profile>, trigger: Trigger, patch: Option<Patch>,
                       upsert: (string, string) -> Option<BackendUser>)
      modifies this
      ensures Snapshot() == JwtResult(old(Snapshot()), account, profile, trigger, patch, upsert)
    {
      if trigger == Update && patch.Some? {
        ApplyUpdate(patch.value);
      }
      if account || userId == Undefined {
        var g := ResolvedGoogleId(profile, Snapshot());
        var e := ResolvedEmail(profile, Snapshot());
        if g == "" || e == "" {
          return;
        }
        var answer := upsert(g, e);
        if answer.Some? {
          CacheBackendUser(answer.value);
        }
      }
    }
  }

  // ---------------------------------------------------------------- sessions

  /** The fields of `session.user` the app sets. */
  datatype SessionView = SessionView(
    id: Js<int>,
    googleId: Js<string>,
    email: Js<string>,
    forwardAddress: string,
    sheetId: Js<string>,
    paid: bool,
    trialExpired: bool,
    lemonPaymentUrl: string,
    created: string)

  /** The `session.user` object, with the fields the app adds. `id` and `googleId` are
      copied by a type cast, so they stay `undefined` when the token lacks them. */
  class SessionUser {
    var id: Js<int>
    var googleId: Js<string>
    var email: Js<string>
    var forwardAddress: string
    var sheetId: Js<string>
    var paid: bool
    var trialExpired: bool
    var lemonPaymentUrl: string
    var created: string

    function View(): SessionView
      reads this
    {
      SessionView(id, googleId, email, forwardAddress, sheetId, paid, trialExpired, lemonPaymentUrl, created)
    }

    constructor (email: Js<string>)
      ensures this.email == email && id == Undefined && googleId == Undefined
    {
      this.email := email;
      id, googleId := Undefined, Undefined;
      forwardAddress, sheetId, paid, trialExpired, lemonPaymentUrl, created := "", Null, false, false, "", "";
    }
  }

  class Session {
    var user: SessionUser?

    constructor (user: SessionUser?)
      ensures this.user == user
    {
      this.user := user;
    }
  }

  /** The session fields `callbacks.session` derives from a token, given the e-mail the
      session held before. */
  function SessionOf(t: TokenView, email: Js<string>): SessionView {
    SessionView(t.userId, t.googleId, Val(OrElse(Coalesce(t.email, email), "")), OrElse(t.forwardAddress, ""),
                Coalesce(t.sheetId, Null), OrElse(t.paid, false), OrElse(t.trialExpired, false),
                OrElse(t.lemonPaymentUrl, ""), OrElse(t.created, ""))
  }

  /** `callbacks.session`: when the session has a user, fills every field from the token,
      with `""`, `null` or `false` for what the token lacks. */
  method SessionCallback(session: Session, t: TokenView)
    modifies session.user
    ensures session.user != null ==> session.user.View() == SessionOf(t, old(session.user.email))
    ensures session.user != null ==>
      && session.user.id == t.userId && session.user.googleId == t.googleId
      && session.user.email == Val(OrElse(Coalesce(t.email, old(session.user.email)), ""))
      && session.user.forwardAddress == OrElse(t.forwardAddress, "")
      && session.user.sheetId == (if t.sheetId.Val? then t.sheetId else Null)
      && session.user.paid == OrElse(t.paid, false)
      && session.user.trialExpired == OrElse(t.trialExpired, false)
      && session.user.lemonPaymentUrl == OrElse(t.lemonPaymentUrl, "")
      && session.user.created == OrElse(t.created, "")
  {
    var u := session.user;
    if u != null {
      u.id := t.userId;
      u.googleId := t.googleId;
      u.email := Val(OrElse(Coalesce(t.email, u.email), ""));
      u.forwardAddress := OrElse(t.forwardAddress, "");
      u.sheetId := Coalesce(t.sheetId, Null);
      u.paid := OrElse(t.paid, false);
      u.trialExpired := OrElse(t.trialExpired, false);
      u.lemonPaymentUrl := OrElse(t.lemonPaymentUrl, "");
      u.created := OrElse(t.created, "");
    }
  }

  /** As written: after a sign-in whose upsert answers with the worker's JSON for a stored
      user, the session has the user's id, address, flags and payment link, but its sheet ID
      is `null` and its Google id `undefined`, whatever the user has stored. */
  lemma SessionAfterWorkerSync(t: TokenView, profile: Option<Profile>,
                               upsert: (string, string) -> Option<BackendUser>,
                               u: User, now: Millis, paymentUrl: string, showTime: Millis -> string,
                               email: Js<string>)
    requires ResolvedGoogleId(profile, t) != "" && ResolvedEmail(profile, t) != ""
    requires upsert(ResolvedGoogleId(profile, t), ResolvedEmail(profile, t)) ==
      Some(ReadBackendUser(Api.UserResponseJson(Api.UserResponseFrom(u, now, paymentUrl), showTime)))
    ensures var s := SessionOf(JwtResult(t, true, profile, SignIn, None, upsert), email);
      && s.sheetId == Null && s.googleId == Undefined
      && s.id == Val(u.id) && s.email == Val(u.email) && s.forwardAddress == u.ForwardingAddress()
      && s.paid == u.paid && s.trialExpired == Api.TrialExpired(u.created, now)
      && s.lemonPaymentUrl == paymentUrl && s.created == showTime(u.created)
  {
    WorkerAnswerAsRead(Api.UserResponseFrom(u, now, paymentUrl), showTime);
  }

  /** Corrected: with the renamed keys the session shows the stored sheet ID and Google id
      as well. */
  lemma SessionAfterRenamedSync(t: TokenView, profile: Option<Profile>,
                                upsert: (string, string) -> Option<BackendUser>,
                                u: User, now: Millis, paymentUrl: string, showTime: Millis -> string,
                                email: Js<string>)
    requires ResolvedGoogleId(profile, t) != "" && ResolvedEmail(profile, t) != ""
    requires upsert(ResolvedGoogleId(profile, t), ResolvedEmail(profile, t)) ==
      Some(ReadBackendUser(Api.UserResponseJsonRenamed(Api.UserResponseFrom(u, now, paymentUrl), showTime)))
    ensures var s := SessionOf(JwtResult(t, true, profile, SignIn, None, upsert), email);
      && s.sheetId == SheetIdJs(u.sheetId) && s.googleId == Val(u.googleId)
      && s.id == Val(u.id) && s.email == Val(u.email) && s.forwardAddress == u.ForwardingAddress()
      && s.paid == u.paid && s.trialExpired == Api.TrialExpired(u.created, now)
      && s.lemonPaymentUrl == paymentUrl && s.created == showTime(u.created)
  {
    RenamedAnswerAsRead(Api.UserResponseFrom(u, now, paymentUrl), showTime);
  }
}
