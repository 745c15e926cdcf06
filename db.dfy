/** The worker's SQLite tables as in-memory sequences: the users table and the logs
    table, with the queries and updates of `worker/src/db.rs`. */
module Db {
  import opened Wrappers
  import opened Text
  import opened Models

  // ---------------------------------------------------------------- lookups

  function ByGoogleId(g: string): User -> bool { (u: User) => u.googleId == g }
  function ById(id: int): User -> bool { (u: User) => u.id == id }
  function ByForwardKey(k: string): User -> bool { (u: User) => u.forwardKey == k }

  /** The index of the first row satisfying `f` (a `WHERE` clause on a table). */
  function FirstWhere(users: seq<User>, f: User -> bool): (r: Option<nat>)
    ensures r.Some? ==> r.value < |users| && f(users[r.value])
    ensures r.Some? ==> forall i :: 0 <= i < r.value ==> !f(users[i])
    ensures r.None? ==> forall i :: 0 <= i < |users| ==> !f(users[i])
  {
    if |users| == 0 then None
    else if f(users[0]) then Some(0)
    else match FirstWhere(users[1..], f)
      case None => None
      case Some(i) => Some(i + 1)
  }

  lemma FirstWhereIs(users: seq<User>, f: User -> bool, i: nat)
    requires i < |users| && f(users[i]) && forall j :: 0 <= j < i ==> !f(users[j])
    ensures FirstWhere(users, f) == Some(i)
  {
  }

  /** The row found by a `WHERE` clause, if any. */
  function RowWhere(users: seq<User>, f: User -> bool): (r: Option<User>)
    ensures r.Some? ==> r.value in users && f(r.value)
    ensures r.None? ==> forall u :: u in users ==> !f(u)
  {
    match FirstWhere(users, f)
    case None => None
    case Some(i) => Some(users[i])
  }

  /** The table constraints: ids, Google ids and forward keys are unique. */
  ghost predicate Distinct(users: seq<User>) {
    forall i, j :: 0 <= i < j < |users| ==>
      users[i].id != users[j].id
      && users[i].googleId != users[j].googleId
      && users[i].forwardKey != users[j].forwardKey
  }

  // ---------------------------------------------------------------- forward keys

  /** The characters of a random alphanumeric sample that survive the `[a-z0-9]` filter. */
  function LowerAlnumOf(sample: seq<char>): (r: string)
    ensures forall i :: 0 <= i < |r| ==> IsLowerAlnum(r[i])
  {
    if |sample| == 0 then []
    else (if IsLowerAlnum(sample[0]) then [sample[0]] else []) + LowerAlnumOf(sample[1..])
  }

  predicate SampleLongEnough(sample: seq<char>) { |LowerAlnumOf(sample)| >= 8 }

  /** One candidate of `generate_forward_key`: the first eight filtered characters,
      lower-cased. */
  function Candidate(sample: seq<char>): (k: string)
    requires SampleLongEnough(sample)
    ensures IsForwardKey(k)
  {
    var raw := LowerAlnumOf(sample)[..8];
    assert forall i :: 0 <= i < 8 ==> !IsAsciiUpper(raw[i]);
    ToAsciiLower(raw)
  }

  predicate KeyUnused(users: seq<User>, k: string) {
    FirstWhere(users, ByForwardKey(k)).None?
  }

  /** The random stream eventually yields a key that no user holds. */
  predicate CanDrawFreshKey(users: seq<User>, samples: seq<seq<char>>) {
    && (forall i :: 0 <= i < |samples| ==> SampleLongEnough(samples[i]))
    && (exists i :: 0 <= i < |samples| && KeyUnused(users, Candidate(samples[i])))
  }

  // ---------------------------------------------------------------- upsert

  /** The users table after `upsert_user`, and the row it returns. `freshKey` and `newId`
      are used only when no row has the payload's Google id. An existing row keeps its id,
      forward key, paid flag and creation time; its email is replaced, and its sheet id is
      replaced only when the payload carries one. */
  function Upserted(users: seq<User>, payload: UserUpsert, freshKey: string, newId: int, now: Millis)
    : (r: (seq<User>, User))
    ensures r.1.googleId == payload.googleId && r.1.email == payload.email
    ensures r.1 in r.0
  {
    match FirstWhere(users, ByGoogleId(payload.googleId))
    case Some(i) =>
      var existing := users[i];
      var sheetId := if payload.sheetId.Some? then payload.sheetId else existing.sheetId;
      var u := existing.(email := payload.email, sheetId := sheetId);
      assert users[i := u][i] == u;
      (users[i := u], u)
    case None =>
      var u := User(newId, payload.googleId, payload.email, payload.sheetId, freshKey, false, now);
      (users + [u], u)
  }

  /** Upserting a known Google id keeps the row's id, forward key, paid flag and creation
      time, updates its email, and takes the payload's sheet id or else the stored one. */
  lemma UpsertExisting(users: seq<User>, payload: UserUpsert, freshKey: string, newId: int, now: Millis, i: nat)
    requires i < |users| && users[i].googleId == payload.googleId && Distinct(users)
    ensures var (table, u) := Upserted(users, payload, freshKey, newId, now);
      && u.id == users[i].id && u.forwardKey == users[i].forwardKey
      && u.paid == users[i].paid && u.created == users[i].created
      && u.email == payload.email
      && u.sheetId == (if payload.sheetId.Some? then payload.sheetId else users[i].sheetId)
      && |table| == |users| && table[i] == u
      && forall j :: 0 <= j < |users| && j != i ==> table[j] == users[j]
  {
    FirstWhereIs(users, ByGoogleId(payload.googleId), i);
  }

  /** Upserting an unknown Google id appends one unpaid row with the fresh key. */
  lemma UpsertNew(users: seq<User>, payload: UserUpsert, freshKey: string, newId: int, now: Millis)
    requires forall u :: u in users ==> u.googleId != payload.googleId
    ensures var (table, u) := Upserted(users, payload, freshKey, newId, now);
      && table == users + [u]
      && u == User(newId, payload.googleId, payload.email, payload.sheetId, freshKey, false, now)
  {
    assert forall j :: 0 <= j < |users| ==> users[j] in users;
  }

  /** Upserting the same payload a second time changes nothing and returns the same row,
      whatever key and id the second call could have drawn. */
  lemma {:induction false} UpsertIdempotent(users: seq<User>, payload: UserUpsert, k1: string, n1: int, t1: Millis,
                                            k2: string, n2: int, t2: Millis)
    ensures var (table, u) := Upserted(users, payload, k1, n1, t1);
      Upserted(table, payload, k2, n2, t2) == (table, u)
  {
    var g := ByGoogleId(payload.googleId);
    var (table, u) := Upserted(users, payload, k1, n1, t1);
    match FirstWhere(users, g)
    case Some(i) =>
      assert table == users[i := u];
      assert forall j :: 0 <= j < i ==> table[j] == users[j];
      FirstWhereIs(table, g, i);
      assert table[i] == u;
      var again := u.(email := payload.email, sheetId := if payload.sheetId.Some? then payload.sheetId else u.sheetId);
      assert again == u;
      assert table[i := again] == table;
    case None =>
      assert table == users + [u];
      assert forall j :: 0 <= j < |users| ==> table[j] == users[j];
      FirstWhereIs(table, g, |users|);
      assert table[|users|] == u;
      var again := u.(email := payload.email, sheetId := if payload.sheetId.Some? then payload.sheetId else u.sheetId);
      assert again == u;
      assert table[|users| := again] == table;
  }

  // ---------------------------------------------------------------- paid flag

  /** The users table after `UPDATE users SET paid = 1 WHERE email = ?`. */
  function MarkedPaid(users: seq<User>, email: string): (r: seq<User>)
    ensures |r| == |users|
    ensures forall i :: 0 <= i < |r| ==> r[i].paid == (users[i].paid || users[i].email == email)
    ensures forall i :: 0 <= i < |r| ==> r[i].(paid := users[i].paid) == users[i]
  {
    seq(|users|, i requires 0 <= i < |users| =>
      if users[i].email == email then users[i].(paid := true) else users[i])
  }

  /** Marking the same email paid twice is the same as once. */
  lemma MarkedPaidIdempotent(users: seq<User>, email: string)
    ensures MarkedPaid(MarkedPaid(users, email), email) == MarkedPaid(users, email)
  {
  }

  // ---------------------------------------------------------------- logs

  /** The log rows of one user, in table order (`WHERE user_id = ?`). */
  function LogsOf(logs: seq<LogEntry>, userId: int): (r: seq<LogEntry>)
    ensures forall e :: e in r <==> e in logs && e.userId == userId
    ensures |r| <= |logs|
  {
    if |logs| == 0 then []
    else (if logs[0].userId == userId then [logs[0]] else []) + LogsOf(logs[1..], userId)
  }

  ghost predicate NewestFirst(s: seq<LogEntry>) {
    forall i, j :: 0 <= i < j < |s| ==> s[i].parsedAt >= s[j].parsedAt
  }

  function InsertNewestFirst(x: LogEntry, s: seq<LogEntry>): (r: seq<LogEntry>)
    requires NewestFirst(s)
    ensures NewestFirst(r)
    ensures multiset(r) == multiset(s) + multiset{x}
    ensures r[0] == x || r[0] == s[0]
  {
    if |s| == 0 || x.parsedAt >= s[0].parsedAt then
      [x] + s
    else
      var tail := InsertNewestFirst(x, s[1..]);
      assert s == [s[0]] + s[1..];
      assert s[0].parsedAt >= tail[0].parsedAt;
      PrependNewest(s[0], tail);
      [s[0]] + tail
  }

  lemma PrependNewest(a: LogEntry, t: seq<LogEntry>)
    requires NewestFirst(t) && (|t| > 0 ==> a.parsedAt >= t[0].parsedAt)
    ensures NewestFirst([a] + t)
  {
    var r := [a] + t;
    forall i, j | 0 <= i < j < |r| ensures r[i].parsedAt >= r[j].parsedAt {
      if i == 0 {
        assert r[j] == t[j - 1];
        if j > 1 { assert t[0].parsedAt >= t[j - 1].parsedAt; }
      } else {
        assert r[i] == t[i - 1] && r[j] == t[j - 1];
      }
    }
  }

  /** `ORDER BY parsed_at DESC`, by insertion. */
  function SortNewestFirst(s: seq<LogEntry>): (r: seq<LogEntry>)
    ensures NewestFirst(r)
    ensures multiset(r) == multiset(s)
  {
    if |s| == 0 then []
    else
      assert s == [s[0]] + s[1..];
      InsertNewestFirst(s[0], SortNewestFirst(s[1..]))
  }

  /** SQLite `LIMIT n`: a negative limit means no limit. */
  function Limit(s: seq<LogEntry>, n: int): (r: seq<LogEntry>)
    ensures |r| == if 0 <= n < |s| then n else |s|
    ensures r == s[..|r|]
  {
    if 0 <= n < |s| then s[..n] else s
  }

  /** Taking a prefix of a newest-first sequence leaves out only entries that are not newer
      than any entry kept. */
  lemma PrefixKeepsNewest(s: seq<LogEntry>, k: nat)
    requires NewestFirst(s) && k <= |s|
    ensures multiset(s[..k]) <= multiset(s)
    ensures NewestFirst(s[..k])
    ensures forall e, x :: e in s && e !in s[..k] && x in s[..k] ==> e.parsedAt <= x.parsedAt
  {
    assert s == s[..k] + s[k..];
    assert multiset(s) == multiset(s[..k]) + multiset(s[k..]);
    forall e, x | e in s && e !in s[..k] && x in s[..k]
      ensures e.parsedAt <= x.parsedAt
    {
      var a :| 0 <= a < k && s[..k][a] == x;
      var b :| 0 <= b < |s| && s[b] == e;
      if b < k {
        assert s[..k][b] == e;
      }
    }
  }

  /** Filter, sort newest first, limit. */
  function Recent(logs: seq<LogEntry>, userId: int, limit: int): seq<LogEntry> {
    Limit(SortNewestFirst(LogsOf(logs, userId)), limit)
  }

  lemma RecentSpec(logs: seq<LogEntry>, userId: int, limit: int)
    ensures var r := Recent(logs, userId, limit);
      && (forall e :: e in r ==> e in logs && e.userId == userId)
      && NewestFirst(r)
      && (var n := |LogsOf(logs, userId)|; |r| == if 0 <= limit < n then limit else n)
      && multiset(r) <= multiset(LogsOf(logs, userId))
      && forall e, x :: e in logs && e.userId == userId && e !in r && x in r ==> e.parsedAt <= x.parsedAt
  {
    var matching := LogsOf(logs, userId);
    var sorted := SortNewestFirst(matching);
    var r := Limit(sorted, limit);
    PrefixKeepsNewest(sorted, |r|);
    forall e | e in matching ensures e in sorted {
      assert e in multiset(matching);
    }
    forall e | e in r ensures e in logs && e.userId == userId {
      assert e in multiset(r);
      assert e in multiset(matching);
    }
  }

  // ---------------------------------------------------------------- the database

  class Database {
    var users: seq<User>
    var logs: seq<LogEntry>
    /** The next row ids the database will hand out. */
    var nextUserId: int
    var nextLogId: int

    ghost predicate Valid()
      reads this
    {
      && Distinct(users)
      && (forall i :: 0 <= i < |users| ==> users[i].id < nextUserId && IsForwardKey(users[i].forwardKey))
      && (forall i :: 0 <= i < |logs| ==> logs[i].id < nextLogId)
    }

    constructor ()
      ensures Valid() && users == [] && logs == []
    {
      users, logs := [], [];
      nextUserId, nextLogId := 1, 1;
    }

    /** `user_by_id`. */
    function UserById(id: int): (r: Option<User>)
      reads this
      ensures r.Some? ==> r.value in users && r.value.id == id
      ensures r.None? ==> forall u :: u in users ==> u.id != id
    {
      RowWhere(users, ById(id))
    }

    /** `user_by_forward`. */
    function UserByForward(key: string): (r: Option<User>)
      reads this
      ensures r.Some? ==> r.value in users && r.value.forwardKey == key
      ensures r.None? ==> forall u :: u in users ==> u.forwardKey != key
    {
      RowWhere(users, ByForwardKey(key))
    }

    /** `generate_forward_key`: draws candidates until one is held by no user. The result is
        the first unused candidate of the stream. */
    method GenerateForwardKey(samples: seq<seq<char>>) returns (key: string)
      requires CanDrawFreshKey(users, samples)
      ensures IsForwardKey(key) && KeyUnused(users, key)
      ensures forall u :: u in users ==> u.forwardKey != key
      ensures exists i :: 0 <= i < |samples| && key == Candidate(samples[i])
                          && forall j :: 0 <= j < i ==> !KeyUnused(users, Candidate(samples[j]))
    {
      var i := 0;
      while true
        invariant 0 <= i < |samples|
        invariant forall j :: 0 <= j < i ==> !KeyUnused(users, Candidate(samples[j]))
        invariant exists j :: i <= j < |samples| && KeyUnused(users, Candidate(samples[j]))
        decreases |samples| - i
      {
        var slug := Candidate(samples[i]);
        if FirstWhere(users, ByForwardKey(slug)).None? {
          key := slug;
          assert forall u :: u in users ==> !ByForwardKey(key)(u);
          return;
        }
        i := i + 1;
      }
    }

    /** `upsert_user`: read the row by Google id, keep or generate the forward key, keep the
        stored sheet id when the payload has none, then insert or update. */
    method UpsertUser(payload: UserUpsert, now: Millis, samples: seq<seq<char>>) returns (user: User)
      requires Valid()
      requires RowWhere(users, ByGoogleId(payload.googleId)).None? ==> CanDrawFreshKey(users, samples)
      modifies this
      ensures Valid()
      ensures (users, user) == Upserted(old(users), payload, user.forwardKey, old(nextUserId), now)
      ensures old(RowWhere(users, ByGoogleId(payload.googleId))).None? ==>
        forall u :: u in old(users) ==> u.forwardKey != user.forwardKey
      ensures logs == old(logs) && nextLogId == old(nextLogId)
      ensures nextUserId == if old(RowWhere(users, ByGoogleId(payload.googleId))).Some? then old(nextUserId)
                            else old(nextUserId) + 1
    {
      var existing := RowWhere(users, ByGoogleId(payload.googleId));
      var forwardKey;
      if existing.Some? {
        forwardKey := existing.value.forwardKey;
      } else {
        forwardKey := GenerateForwardKey(samples);
      }
      var r := Upserted(users, payload, forwardKey, nextUserId, now);
      match FirstWhere(users, ByGoogleId(payload.googleId)) {
        case Some(i) =>
          UpsertExisting(users, payload, forwardKey, nextUserId, now, i);
          UpsertKeepsDistinct(users, i, r.1);
        case None =>
          UpsertNew(users, payload, forwardKey, nextUserId, now);
          nextUserId := nextUserId + 1;
      }
      users, user := r.0, r.1;
    }

    /** `mark_paid`. */
    method MarkPaid(email: string)
      requires Valid()
      modifies this
      ensures Valid()
      ensures users == MarkedPaid(old(users), email)
      ensures logs == old(logs) && nextUserId == old(nextUserId) && nextLogId == old(nextLogId)
    {
      users := MarkedPaid(users, email);
    }

    /** `insert_log`: appends one row with a new id and the current time and returns it. */
    method InsertLog(entry: NewLogEntry, now: Millis) returns (row: LogEntry)
      requires Valid()
      modifies this
      ensures Valid()
      ensures row == LogEntry(old(nextLogId), entry.userId, entry.orderDate, entry.gross, entry.tips,
                              entry.mileage, now)
      ensures logs == old(logs) + [row]
      ensures users == old(users) && nextUserId == old(nextUserId)
    {
      row := LogEntry(nextLogId, entry.userId, entry.orderDate, entry.gross, entry.tips, entry.mileage, now);
      logs := logs + [row];
      nextLogId := nextLogId + 1;
    }

    /** `recent_logs(user_id, limit)`: the user's newest entries, newest first, at most
        `limit` of them (all when `limit` is negative); every entry of the user left out is
        no newer than every entry returned. */
    function RecentLogs(userId: int, limit: int): (r: seq<LogEntry>)
      reads this
      ensures forall e :: e in r ==> e in logs && e.userId == userId
      ensures NewestFirst(r)
      ensures var n := |LogsOf(logs, userId)|; |r| == if 0 <= limit < n then limit else n
      ensures multiset(r) <= multiset(LogsOf(logs, userId))
      ensures forall e, x :: e in logs && e.userId == userId && e !in r && x in r ==>
        e.parsedAt <= x.parsedAt
    {
      RecentSpec(logs, userId, limit);
      Recent(logs, userId, limit)
    }

    /** `users_on_trial(days)`: the unpaid users created at least `days` days before `now`,
        in table order. The query's modifier is `-{days} days`; for a negative count that
        reads `--N days`, which SQLite's `datetime` rejects with NULL, and `created <= NULL`
        selects nobody. */
    function UsersOnTrial(days: int, now: Millis): (r: seq<User>)
      reads this
      ensures days >= 0 ==> forall u :: u in r <==> u in users && !u.paid && u.created <= now - days * DAY_MS
      ensures days < 0 ==> r == []
    {
      if days < 0 then [] else OnTrial(users, now - days * DAY_MS)
    }
  }

  function OnTrial(users: seq<User>, cutoff: Millis): (r: seq<User>)
    ensures forall u :: u in r <==> u in users && !u.paid && u.created <= cutoff
  {
    if |users| == 0 then []
    else (if !users[0].paid && users[0].created <= cutoff then [users[0]] else []) + OnTrial(users[1..], cutoff)
  }

  /** Replacing a row by one with the same id, Google id and forward key keeps the table's
      constraints. */
  lemma UpsertKeepsDistinct(users: seq<User>, i: nat, u: User)
    requires Distinct(users) && i < |users|
    requires u.id == users[i].id && u.googleId == users[i].googleId && u.forwardKey == users[i].forwardKey
    ensures Distinct(users[i := u])
  {
  }
}
