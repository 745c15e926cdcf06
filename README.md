# DriverSheet, modelled in Dafny

DriverSheet turns payout e-mails from delivery platforms into an earnings log. A user signs
in with Google and receives a forwarding address `user-<key>@driversheet.com`. Payout mails
sent to that address reach the worker's SMTP handler. The handler finds the first PDF in the
message, reads gross, tips, mileage and date from it, and inserts a log row. The web
dashboard shows the logs, a summary, a CSV export and a seven-day trial countdown. An unpaid
user whose trial has run out gets HTTP 402 from the worker and an upgrade card on the page.
A signed billing webhook marks users as paid.

The project models that core as follows:

- `wrappers.dfy`, `text.dfy`: `Option`/`Result`, and the string operations the Rust and
  TypeScript code take from their standard libraries (ASCII lower-casing,
  `trim_start_matches`, `find`, `split_once`, `trim`, `split`/`join`, decimal rendering).
- `models.dfy`: the record shapes and `User::forwarding_address`.
- `db.dfy`: the users and logs tables, as a `Database` class whose methods do what the SQL
  does: upsert, mark paid, insert a log, the lookups, the trial query, and the key-drawing
  loop.
- `mail.dfy`: forwarding-address decoding, the MIME search for the payout PDF,
  `parse_text`, `process_message`, and the SMTP session as a `MailApp` class.
- `api.dfy`: sheet-ID normalisation, the user response, the logs paywall, the webhook and
  the error-to-status mapping.
- `auth.dfy`: `requiredEnv`, the `jwt` callback (as a `Jwt` class updated in place, specified
  by the pure `JwtResult`) and the `session` callback.
- `dashboard.dfy`: `computeTrialDays`, `computeStats`, the CSV export, load-error
  classification, the `loadLogs` state, and the render branch.
- `trial_banner.dfy`: the `TrialBanner` component's choices.

Conventions:

- Instants are integer milliseconds.
- Money is integer cents, and mileage is integer hundredths of a mile.
- Foreign code and I/O are function parameters:
  - `parseMail`: mailparse;
  - `extractText`: PDF text extraction;
  - `capture`: the regex captures;
  - `digest`: the hex HMAC-SHA256 under the webhook secret;
  - `decodeUtf8`, `parseJson`;
  - `upsert`: the `upsertUser` HTTP call;
  - `parseDate`: `new Date(...).getTime()`;
  - `now`: the clock.
- Random draws for forward keys are a sequence of samples.
- JavaScript `undefined`/`null` are the `Js` datatype, so `??` is modelled exactly.

Behaviours of the code worth noting:

- `computeTrialDays` returns `NaN`, not `null`, for a creation time that does not parse
  (`Dashboard.TrialDays.NotANumber`). The banner stays hidden either way.
- The `session` callback copies `id` and `googleId` by a type cast. They stay `undefined`
  when the token lacks them, rather than being defaulted.
- An `update` trigger on a token not yet linked to a user also calls the backend
  (`Auth.UpdateOfUnlinkedTokenSyncs`).
- The CSV export is not newline-separated (see Findings).
- `users_on_trial` with a negative day count builds the SQLite modifier `--N days`, which
  `datetime` rejects, so the query lists nobody (`Db.Database.UsersOnTrial`).
- The worker answers `POST /api/users` with the keys `google_id` and `sheet_id`. The web client
  reads `googleId` and `sheetId`, so after a sync the session has no sheet ID (see Findings).
  The model's `BackendUser` is therefore what the browser reads, property by property.

## Model

| member | source | states |
|---|---|---|
| Models.ForwardingAddress | worker/src/models.rs:19-23 | the address is `user-`, then the key, then `@driversheet.com`; its length is the key's plus 21 |
| Models.ForwardingAddressInjective | worker/src/models.rs:20-22 | equal addresses imply equal keys |
| Text.TrimStartMatchesNoPrefix | worker/src/mail.rs:68 | what `trim_start_matches("user-")` leaves never starts with `user-` |
| Mail.ParseForwardKey | worker/src/mail.rs:64-72 | a decoded key never starts with `user-`, contains no `@` and has no upper-case letter |
| Mail.ParseForwardKeyAccepts | worker/src/mail.rs:64-71 | if the lower-cased address is `local@driversheet.com` with `@` absent from `local`, the result is the stripped key when `local` starts with `user-` and None otherwise |
| Mail.ParseForwardKeyShape | worker/src/mail.rs:64-71 | conversely, every accepted address lower-cases to such a `local@driversheet.com` with `local` starting with `user-` |
| Mail.RepeatedPrefixSameKey | worker/src/mail.rs:68 | for every key, `user-user-<key>@driversheet.com` decodes to the same result as `user-<key>@driversheet.com` |
| Mail.ParseForwardingAddress | worker/src/models.rs:20-22 | round trip: decoding a user's address gives back the key, if the key is lower-case, has no `@` and does not start with `user-` |
| Mail.ParseGeneratedAddress | worker/src/models.rs:20-22 | round trip for every key of 8 characters from `[a-z0-9]` |
| Mail.ValidKeys | worker/src/mail.rs:165-174 | each collected key is the key of some envelope address, and there are no more keys than addresses |
| Mail.ValidKeysComplete | worker/src/mail.rs:167-171 | every valid envelope address contributes its key |
| Mail.FindFirstPdfIsFirstCandidate | worker/src/mail.rs:198-219 | when every PDF body can be read, the search returns the first PDF part in depth-first pre-order (a childless root counting only if it is a PDF), and fails with "not found" when there is none |
| Mail.FindInPartsIsFirstCandidate | worker/src/mail.rs:207-216 | the same for the loop over subparts |
| Mail.FindFirstPdfSound | worker/src/mail.rs:198-219 | for any bodies, a returned body belongs to one of the PDF parts the search examines |
| Mail.FindInPartsSound | worker/src/mail.rs:207-216 | the same for the loop over subparts |
| Mail.FindFirstPdfNone | worker/src/mail.rs:218 | with no PDF part the search fails with "not found" |
| Mail.ParseText | worker/src/mail.rs:232-238 | succeeds exactly when gross, tips and date were captured; errors are checked in the order gross, tips, date; mileage is optional |
| Mail.ProcessMessage | worker/src/mail.rs:74-129 | a row is produced exactly when the mail parses, a user has the recipient key, the search finds a PDF, its text is extracted and gross, tips and date are found; the row carries that user's id and those amounts. The error is "unparsable" exactly when parsing fails, "no PDF" exactly when the search fails for a known user, and "incomplete text" exactly when `parse_text` fails, with its error. An unknown recipient or an unextractable PDF ends quietly |
| Mail.DeliveryToUser | worker/src/mail.rs:74-129 | mail to a user's address whose first PDF yields text creates a row for that user exactly when gross, tips and date are found, carrying those amounts |
| Mail.MailApp.constructor | worker/src/mail.rs:55-62 | a new handler starts with no recipients and an empty buffer |
| Mail.MailApp.Mail | worker/src/mail.rs:149-153 | answers OK and empties recipients and buffer |
| Mail.MailApp.Rcpt | worker/src/mail.rs:155-163 | a decodable address appends its key and answers OK; any other is refused with NO_MAILBOX and changes nothing |
| Mail.MailApp.DataStart | worker/src/mail.rs:165-174 | only an empty recipient list is filled, with the keys of the valid envelope addresses in order |
| Mail.MailApp.Data | worker/src/mail.rs:176-179 | the chunk is appended to the buffer |
| Mail.MailApp.DataEnd | worker/src/mail.rs:181-195 | always OK and recipients cleared; with a recipient, only the first is processed, the buffer is taken and at most the one resulting row is inserted; without one, buffer and logs are unchanged |
| Db.FirstWhere | worker/src/db.rs:13-19 | the index of the first row matching the `WHERE` condition, or None when no row matches |
| Db.RowWhere | worker/src/db.rs:92-112 | a returned row is in the table and matches; None means no row matches |
| Db.Candidate | worker/src/db.rs:128-134 | a drawn candidate is 8 characters from `[a-z0-9]` |
| Db.Upserted | worker/src/db.rs:11-54 | the returned row carries the payload's googleId and email and is in the new table |
| Db.UpsertExisting | worker/src/db.rs:21-34 | an existing user keeps id, forward key, paid flag and creation time, and takes the new email; the sheet ID is the payload's, else the stored one; nothing else changes |
| Db.UpsertNew | worker/src/db.rs:21-34 | a new googleId appends one unpaid row with the fresh key, the next id and the payload's sheet ID |
| Db.UpsertIdempotent | worker/src/db.rs:11-54 | a second upsert of the same payload changes nothing and returns the same row |
| Db.UpsertKeepsDistinct | worker/src/db.rs:31-34 | updating a row in place keeps ids, googleIds and forward keys unique |
| Db.MarkedPaid | worker/src/db.rs:56-62 | every row with that email becomes paid, and no other field or row changes |
| Db.MarkedPaidIdempotent | worker/src/db.rs:56-62 | marking twice is marking once |
| Db.LogsOf | worker/src/db.rs:64-67 | exactly the entries of the given user |
| Db.InsertNewestFirst | worker/src/db.rs:67 | inserting into a newest-first list keeps it newest first and adds exactly one entry |
| Db.SortNewestFirst | worker/src/db.rs:67 | the result is a newest-first permutation of the input |
| Db.Limit | worker/src/db.rs:67 | `LIMIT n` keeps the first `n` entries, or all of them when `n` is negative or large |
| Db.PrefixKeepsNewest | worker/src/db.rs:67 | a prefix of a newest-first list holds no entry older than one it leaves out |
| Db.RecentSpec | worker/src/db.rs:64-74 | the query result holds only the user's entries, newest first, with the right count; it is a sub-multiset of the user's entries, and no omitted entry is newer than a returned one |
| Db.OnTrial | worker/src/db.rs:114-124 | exactly the unpaid users created at or before the cutoff |
| Db.Database.UserById | worker/src/db.rs:103-112 | a returned user is in the table with that id; None means no row has that id |
| Db.Database.UserByForward | worker/src/db.rs:92-101 | a returned user is in the table with that key; None means no row has that key |
| Db.Database.GenerateForwardKey | worker/src/db.rs:126-143 | returns the first drawn candidate no user holds; it is 8 characters from `[a-z0-9]` |
| Db.Database.UpsertUser | worker/src/db.rs:11-54 | the tables become `Upserted(...)`, with a fresh unused key for a new user; the next user id advances exactly when a row is inserted; validity is preserved and the logs are untouched |
| Db.Database.MarkPaid | worker/src/db.rs:56-62 | users become `MarkedPaid(old users, email)`; logs and counters are unchanged |
| Db.Database.InsertLog | worker/src/db.rs:76-90 | appends exactly one row with the next id, the given fields and the insertion time, returns it, and leaves earlier rows unchanged |
| Db.Database.RecentLogs | worker/src/db.rs:64-74 | only the user's entries, newest first, `min(limit, count)` of them (all when `limit` is negative); none omitted is newer than one returned |
| Db.Database.UsersOnTrial | worker/src/db.rs:114-124 | for a non-negative `days`, a user is listed exactly when unpaid and created at least `days` days before `now`; for a negative `days` the modifier `--N days` is invalid and nobody is listed |
| Api.NormalizeSheetId | worker/src/api.rs:108-120 | without the marker the input is kept; otherwise the result is the prefix of the text after the first marker up to its first `/` (even with an earlier `?`), else up to its first `?`, else the whole text |
| Api.NormalizeSheetIdIdempotent | worker/src/api.rs:108-120 | normalising twice is normalising once |
| Api.NormalizeSheet | worker/src/api.rs:103-106 | googleId and email pass through; the sheet ID is present exactly when it was, and is slash-free whenever the trimmed input held the marker |
| Api.NormalizeSheetKeepsBareId | worker/src/api.rs:103-106 | a bare document ID with no surrounding whitespace is stored unchanged |
| Api.UserResponseFrom | worker/src/api.rs:138-157 | copies the user's columns; the address is the user's forwarding address and decodes back to the user's key; `trialExpired` holds exactly when more than 7 days have passed, whatever `paid` |
| Api.UserResponseJson | worker/src/api.rs:122-136 | as serialised, the Google id and the sheet ID go out under `google_id` and `sheet_id`; no `googleId` or `sheetId` key is written |
| Api.UserResponseJsonRenamed | worker/src/models.rs:8-12 | with the renames `User` uses, the keys are `googleId` and `sheetId`, carrying the Google id and the sheet ID or `null` |
| Api.TrialExpiredStays | worker/src/api.rs:140 | once set, the trial flag stays set as time passes |
| Api.ApiError.IntoResponse | worker/src/api.rs:188-213 | the mapping is total: 401 exactly for Unauthorized, 404 for NotFound, 402 for PaymentRequired, 400 for BadRequest and BadUtf8, 500 for Database and Other |
| Api.ResponsesDistinguishErrors | worker/src/api.rs:188-213 | different errors give different status-and-body responses |
| Api.ListLogs | worker/src/api.rs:43-60 | "not found" exactly for an unknown id; every other error is "payment required"; on success the answer is `recent_logs(id, 30)`: at most 30 of the user's entries, newest first, none of the user's omitted entries newer than one returned |
| Api.ListLogsPaywall | worker/src/api.rs:47-58 | with valid tables, "payment required" exactly when the user is unpaid and more than 7 days old (exactly 7 days is still served); otherwise `min(30, count)` entries |
| Api.WebhookDecision | worker/src/api.rs:62-101 | "unauthorized" exactly for a missing signature or one that differs from the body's digest; "invalid utf8" exactly for a signed body that is not UTF-8; "invalid body" exactly for a verified body that is not a webhook. A verified webhook succeeds: it marks its customer email when the event is `invoice.paid`, and nobody otherwise |
| Api.ForgedWebhookRejected | worker/src/api.rs:91-101 | a signature other than the digest is always "unauthorized" |
| Api.LemonWebhookRoute | worker/src/api.rs:62-85 | answers with the decision; users become `MarkedPaid` only for a verified `invoice.paid` event and are unchanged otherwise; logs are untouched |
| Api.UpsertUserRoute | worker/src/api.rs:34-41 | the table is upserted with the normalised payload, and the response describes the stored row |
| Auth.RequiredEnv | web/lib/auth.ts:6-12 | fails with `"<name> is required"` exactly when the variable is missing or empty; otherwise returns its value |
| Auth.Merged | web/lib/auth.ts:41-49 | the update leaves sub, userId, googleId, email and created untouched; each patched field is patch, else token, else the default null, undefined, false, false or "" |
| Auth.UpdateCannotClearSheetId | web/lib/auth.ts:43 | a null or absent patch value cannot clear a sheet ID the token holds |
| Auth.MergeIdempotent | web/lib/auth.ts:41-49 | applying the same patch twice equals applying it once |
| Auth.ResolvedGoogleId | web/lib/auth.ts:54 | the profile's `sub` when present, else the token's, else "" |
| Auth.ResolvedEmail | web/lib/auth.ts:55-58 | the profile's email when present, else the token's, else "" |
| Auth.Synced | web/lib/auth.ts:66-74 | a successful sync sets all nine cached fields to what was read from the answer, `undefined` included, and keeps `sub` |
| Auth.WorkerAnswerAsRead | web/lib/auth.ts:65-74 | reading the worker's answer as written under the `BackendUser` property names gives every field except `googleId` and `sheetId`, which are `undefined` |
| Auth.RenamedAnswerAsRead | web/lib/auth.ts:65-74 | with the renamed keys every field is read, the sheet ID as a string or `null` |
| Auth.JwtResult | web/lib/auth.ts:28-81 | the callback never changes `sub`; it syncs exactly when there is an account or `token.userId` is undefined, the resolved googleId and email are non-empty and `upsertUser` succeeds, and then caches the answer over the updated token; otherwise it returns the updated token |
| Auth.NoSyncForLinkedToken | web/lib/auth.ts:51-53 | without an account, a token linked to a user never reaches the backend; only the update applies |
| Auth.NoSyncWithoutIdentity | web/lib/auth.ts:60-62 | for every trigger, an empty resolved googleId or email returns the token with only the update applied |
| Auth.RefreshOfUnlinkedTokenSyncs | web/lib/auth.ts:51-77 | a plain refresh of a token not yet linked to a user retries the sync: the backend user on success, the token unchanged on failure |
| Auth.SignInSync | web/lib/auth.ts:64-77 | a sign-in whose upsert succeeds caches exactly the backend user; one whose upsert fails leaves the token as it was |
| Auth.UpdateOfUnlinkedTokenSyncs | web/lib/auth.ts:41-77 | an update of an unlinked token also syncs, and the sync overwrites the patched fields |
| Auth.Jwt.ApplyUpdate | web/lib/auth.ts:41-49 | the in-place field assignments produce `Merged(old token, patch)` |
| Auth.Jwt.CacheBackendUser | web/lib/auth.ts:65-74 | the in-place assignments produce `Synced(old token, user)` |
| Auth.Jwt.JwtCallback | web/lib/auth.ts:28-81 | the token afterwards is `JwtResult(old token, ...)` |
| Auth.SessionCallback | web/lib/auth.ts:82-95 | with a session user, the user's fields become `SessionOf(token, previous email)`: each filled from the token, with "", null or false for missing values, and `id` and `googleId` copied as is; without one, nothing changes |
| Auth.SessionAfterWorkerSync | web/lib/auth.ts:64-92 | as written: after a sign-in whose upsert answers with the worker's JSON for a stored user, the session shows the user's id, email, forwarding address, paid and trial flags, payment link and creation time, but its sheet ID is `null` and its Google id `undefined`, whatever is stored |
| Auth.SessionAfterRenamedSync | web/lib/auth.ts:64-92 | corrected: with the renamed keys the session also shows the stored sheet ID and Google id |
| Banner.RemainingText | web/components/TrialBanner.tsx:35 | the status line starts with the number of days |
| Banner.TrialBanner | web/components/TrialBanner.tsx:9-43 | hidden exactly above 7 days; expired exactly at 0 or below; high urgency exactly at 2 or below; the expired texts when expired, the active message otherwise |
| Banner.ActiveStatusText | web/components/TrialBanner.tsx:33-36 | for 1 to 7 days: `"<n> day remaining in trial"` for one day and `"<n> days remaining in trial"` otherwise |
| Banner.StatusTextDistinguishesDays | web/components/TrialBanner.tsx:33-36 | two live banners with the same status line show the same number of days |
| Dashboard.CeilDiv | web/app/dash/page.tsx:42 | `Math.ceil(a / d)`: the least `r` with `a <= r * d` |
| Dashboard.ComputeTrialDays | web/app/dash/page.tsx:33-43 | `null` exactly when paid or `created` is empty; `NaN` exactly when `created` does not parse; otherwise the days left, rounded up |
| Dashboard.DaysLeftAtCreation | web/app/dash/page.tsx:38-42 | 7 at the moment of creation |
| Dashboard.DaysLeftMonotone | web/app/dash/page.tsx:38-42 | the countdown never increases as time passes |
| Dashboard.DaysLeftExpired | web/app/dash/page.tsx:38-42 | at most 0 exactly once 7 full days have passed; exactly 0 during the eighth day |
| Dashboard.DaysLeftAgreesWithWorker | web/app/dash/page.tsx:38-42 | when the worker's "more than 7 days" test refuses, the countdown is at most 0; when it shows a day or more, the worker serves the logs |
| Dashboard.Total | web/app/dash/page.tsx:94-97 | a sum of non-negative contributions is non-negative |
| Dashboard.TotalAppend | web/app/dash/page.tsx:94-97 | the sum over two lists joined is the sum of their sums |
| Dashboard.ComputeStats | web/app/dash/page.tsx:84-100 | deliveries is the number of logs; an empty list gives all zeros; non-negative grosses give a non-negative total |
| Dashboard.ComputeStatsAppend | web/app/dash/page.tsx:84-100 | the summary is additive over concatenation |
| Dashboard.ComputeStatsSingle | web/app/dash/page.tsx:94-97 | one log contributes its gross, its tips, one delivery, and its mileage or 0 |
| Dashboard.ShowAmount | web/app/dash/page.tsx:107-108 | a rendered amount is non-empty and contains no comma or line break |
| Dashboard.MileageField | web/app/dash/page.tsx:109 | the mileage field is empty exactly when the log has no mileage |
| Dashboard.CsvRows | web/app/dash/page.tsx:103-111 | the header, then one five-field row per log, in order |
| Dashboard.CsvContentReadsBack | web/app/dash/page.tsx:103-112 | split at newlines, the corrected export gives `|logs| + 1` lines; each splits at commas into its row's five fields; the mileage field is empty exactly for logs without mileage |
| Dashboard.CsvAsWrittenIsOneLine | web/app/dash/page.tsx:112 | as written, the export has no newline and reads back as one line, fewer lines than the corrected export whenever there are logs |
| Dashboard.FetchLogsMessage | web/lib/backend.ts:55-61 | the thrown message is `payment_required` exactly for status 402 |
| Dashboard.ClassifyLoadError | web/app/dash/page.tsx:69-73 | `payment_required` is recorded exactly for that message, and `Failed to load logs` for anything else |
| Dashboard.LoadErrorFromWorker | web/app/dash/page.tsx:69-73 | combined with the worker's status mapping, the dashboard records `payment_required` exactly for the worker's PaymentRequired error |
| Dashboard.DashboardState.constructor | web/app/dash/page.tsx:48-51 | the page starts with no logs, loading, and no error |
| Dashboard.DashboardState.LoadLogs | web/app/dash/page.tsx:60-77 | with no truthy user id nothing changes, so the page stays on its spinner; otherwise loading ends, and either the logs are stored (an earlier error is kept) or the error is classified |
| Dashboard.BannerFor | web/app/dash/page.tsx:182-184 | a banner is passed exactly for a day count between 0 and 7 |
| Dashboard.Render | web/app/dash/page.tsx:139-265 | spinner exactly while the session or the logs load; the upgrade card exactly for `payment_required`; the header link exactly for an unpaid user with a payment link; the CSV button exactly when there is no card and there are logs |
| Dashboard.BannerShown | web/app/dash/page.tsx:182-184 | the banner shows exactly for an unpaid user whose creation time parses and who has 0 to 7 days left; its expired form appears only at exactly 0 days |
| Dashboard.BannerOnFirstDay | web/app/dash/page.tsx:182-184 | during the first day of the trial the banner shows in its active (not expired) form, with medium urgency |

## Left out

- SMTP server setup, threads and `Handle::block_on` (mail.rs:26-45, 186) are concurrency and
  I/O. HELO (mail.rs:145-148) only logs.
- The temp-file write and delete around PDF extraction, and the Sheets append, are file and
  network I/O.
  - Their failures only log, except a failed temp-file write. That one makes
    `process_message` return an error, which `data_end` also only logs.
  - `Mail.ProcessMessage` therefore omits the Sheets call and treats the write as successful.
- The regular expressions, `f64` parsing and date parsing inside `capture_*` are foreign
  code. `Mail.ParseText` works on their captured results.
- Reading a JSON property whose value has another type than the `BackendUser` interface
  declares gives `undefined` in the model (`Auth.NumProp` and its siblings); the worker never
  sends such a value.
- Floating-point money and mileage are modelled as integers in cents and hundredths.
  `Dashboard.ShowAmount` renders such a value as JavaScript would render the exact decimal.
- HMAC-SHA256 is the `digest` parameter. Its key-length error cannot occur for HMAC and is
  not modelled.
- Database errors (`ApiError::Database`), SQL transactions, migrations and the
  `created`/`parsed_at` defaults come from SQLite. The model sets them from a `now`
  parameter, and inserted ids count up from 1.
- Randomness in `generate_forward_key` is a sequence of drawn samples. The loop's
  termination is assumed via the requirement that some sample is unused.
- Axum routing, CORS, the health route, `main.rs`, `config.rs` and `state.rs` are wiring.
- `backend.ts` is HTTP. Only its 402 message is modelled (`Dashboard.FetchLogsMessage`).
- React rendering, hooks, clipboard and Blob download, `Intl` and `toFixed` formatting, and
  the redirect for unauthenticated users are UI plumbing. `Dashboard.Render` keeps only the
  branch choices.
- `Mail.FindFirstPdf`: the search's full behaviour is stated for readable bodies only. When
  a body cannot be read, only soundness is proved. That case is an error for a direct PDF
  child and is skipped when the unreadable PDF is nested deeper.
- `Api.NormalizeSheet` is not idempotent in general. A URL whose ID is surrounded by spaces
  keeps them until a second trim. Only slash-freedom and the bare-ID case are stated.

## Findings

| source | as written | input that shows it | evidently intended | confidence | as-written member | corrected member |
|---|---|---|---|---|---|---|
| web/app/dash/page.tsx:112 | rows of the CSV export are joined with `'\\n'`, the two characters backslash and `n` | any non-empty log list: the header and the rows come out on one line, separated by a literal `\n` | rows separated by a newline, one line per row (header plus one per log) | high, not executed | Dashboard.CsvAsWrittenIsOneLine | Dashboard.CsvContentReadsBack |
| worker/src/api.rs:122-136 | `UserResponse` renames only `forwardAddress`, `trialExpired` and `lemonPaymentUrl`, so `google_id` and `sheet_id` keep their Rust names, while web/lib/auth.ts:67 and :70 read `googleId` and `sheetId` | a sign-in by a user with a stored sheet ID: the session's `sheetId` is `null` and its `googleId` `undefined` | the two fields renamed as `User` and `UserUpsert` rename them (worker/src/models.rs:8-12, 27-31), so the session shows the stored sheet ID | high, not executed | Auth.SessionAfterWorkerSync | Auth.SessionAfterRenamedSync |
