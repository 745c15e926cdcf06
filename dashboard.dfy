/** The dashboard page: the trial countdown, the earnings summary, the CSV export, the
    classification of log-loading failures, the log-loading state, and the choice of what
    the page renders. */
module Dashboard {
  import opened Wrappers
  import opened Text
  import opened Models
  import Api
  import opened Banner

  // ---------------------------------------------------------------- trial countdown

  /** JavaScript `Math.ceil(a / d)` for a positive divisor, on integers. */
  function CeilDiv(a: int, d: int): (r: int)
    requires d > 0
    ensures (r - 1) * d < a <= r * d
  {
    var q := (-a) / d;
    assert -a == q * d + (-a) % d;
    -q
  }

  /** The result of `computeTrialDays`: `null`, a whole number of days, or `NaN` when
      `created` does not parse as a date. */
  datatype TrialDays = NoTrial | Days(days: int) | NotANumber

  /** Days left of the seven-day trial at `now`, rounded up. */
  function DaysLeft(createdMs: Millis, now: Millis): int {
    CeilDiv(createdMs + 7 * DAY_MS - now, DAY_MS)
  }

  /** `computeTrialDays`, with the clock as `now` and `new Date(created + "Z").getTime()`
      as `parseDate`. */
  function ComputeTrialDays(created: string, paid: bool, now: Millis, parseDate: string -> Option<Millis>): (r: TrialDays)
    ensures r == NoTrial <==> paid || created == ""
    ensures r == NotANumber <==> !paid && created != "" && parseDate(created + "Z").None?
    ensures r.Days? ==> r.days == DaysLeft(parseDate(created + "Z").value, now)
  {
    if paid || created == "" then NoTrial
    else match parseDate(created + "Z")
      case None => NotANumber
      case Some(createdMs) => Days(DaysLeft(createdMs, now))
  }

  /** At the moment of sign-up the trial has seven days left. */
  lemma DaysLeftAtCreation(createdMs: Millis)
    ensures DaysLeft(createdMs, createdMs) == 7
  {
    var r := DaysLeft(createdMs, createdMs);
    assert (r - 1) * DAY_MS < 7 * DAY_MS <= r * DAY_MS;
  }

  /** The countdown never goes up as time passes. */
  lemma DaysLeftMonotone(createdMs: Millis, now: Millis, later: Millis)
    requires now <= later
    ensures DaysLeft(createdMs, later) <= DaysLeft(createdMs, now)
  {
    var a, b := DaysLeft(createdMs, now), DaysLeft(createdMs, later);
    assert (b - 1) * DAY_MS < a * DAY_MS;
  }

  /** The countdown reaches zero exactly when seven full days have passed, and stays at zero
      for the following day. */
  lemma DaysLeftExpired(createdMs: Millis, now: Millis)
    ensures DaysLeft(createdMs, now) <= 0 <==> now >= createdMs + 7 * DAY_MS
    ensures DaysLeft(createdMs, now) == 0 <==> createdMs + 7 * DAY_MS <= now < createdMs + 8 * DAY_MS
  {
    var r := DaysLeft(createdMs, now);
    var a := createdMs + 7 * DAY_MS - now;
    assert (r - 1) * DAY_MS < a <= r * DAY_MS;
    if r <= 0 {
      assert r * DAY_MS <= 0;
    }
    if r >= 1 {
      assert r * DAY_MS >= DAY_MS;
    }
    if r <= -1 {
      assert (r - 1) * DAY_MS <= -2 * DAY_MS;
    }
  }

  /** Whenever the worker refuses the logs for an expired trial, the dashboard's countdown
      is at zero or below; whenever the countdown shows a day or more, the worker serves
      the logs. */
  lemma DaysLeftAgreesWithWorker(createdMs: Millis, now: Millis)
    ensures Api.TrialExpired(createdMs, now) ==> DaysLeft(createdMs, now) <= 0
    ensures DaysLeft(createdMs, now) >= 1 ==> !Api.TrialExpired(createdMs, now)
  {
    DaysLeftExpired(createdMs, now);
  }

  // ---------------------------------------------------------------- earnings summary

  /** A log entry as the browser receives it (`BackendLogEntry`): amounts in cents, mileage
      in hundredths of a mile, dates as the worker's text. */
  datatype WebLog = WebLog(id: int, userId: int, orderDate: string, gross: Cents, tips: Cents,
                           mileage: Option<int>, parsedAt: string)

  datatype Stats = Stats(totalGross: int, totalTips: int, deliveries: nat, totalMiles: int)

  function Gross(log: WebLog): int { log.gross }
  function Tips(log: WebLog): int { log.tips }
  /** `log.mileage || 0`. */
  function Miles(log: WebLog): int { log.mileage.GetOr(0) }

  /** `logs.reduce((sum, log) => sum + f(log), 0)`. */
  function Total(logs: seq<WebLog>, f: WebLog -> int): (r: int)
    ensures (forall i :: 0 <= i < |logs| ==> f(logs[i]) >= 0) ==> r >= 0
  {
    if |logs| == 0 then 0 else Total(logs[..|logs| - 1], f) + f(logs[|logs| - 1])
  }

  /** A total over two lists joined is the sum of their totals. */
  lemma {:induction false} TotalAppend(a: seq<WebLog>, b: seq<WebLog>, f: WebLog -> int)
    ensures Total(a + b, f) == Total(a, f) + Total(b, f)
    decreases |b|
  {
    if |b| > 0 {
      var ab := a + b;
      assert ab[..|ab| - 1] == a + b[..|b| - 1];
      TotalAppend(a, b[..|b| - 1], f);
    } else {
      assert a + b == a;
    }
  }

  /** `computeStats`. */
  function ComputeStats(logs: seq<WebLog>): (r: Stats)
    ensures r.deliveries == |logs|
    ensures logs == [] ==> r == Stats(0, 0, 0, 0)
    ensures (forall i :: 0 <= i < |logs| ==> logs[i].gross >= 0) ==> r.totalGross >= 0
  {
    if |logs| == 0 then Stats(0, 0, 0, 0)
    else
      assert forall i :: 0 <= i < |logs| ==> Gross(logs[i]) == logs[i].gross;
      Stats(Total(logs, Gross), Total(logs, Tips), |logs|, Total(logs, Miles))
  }

  function AddStats(s: Stats, t: Stats): Stats {
    Stats(s.totalGross + t.totalGross, s.totalTips + t.totalTips, s.deliveries + t.deliveries,
          s.totalMiles + t.totalMiles)
  }

  /** The summary of two lists joined is the sum of their summaries. */
  lemma ComputeStatsAppend(a: seq<WebLog>, b: seq<WebLog>)
    ensures ComputeStats(a + b) == AddStats(ComputeStats(a), ComputeStats(b))
  {
    if a == [] {
      assert a + b == b;
    } else if b == [] {
      assert a + b == a;
    } else {
      TotalAppend(a, b, Gross);
      TotalAppend(a, b, Tips);
      TotalAppend(a, b, Miles);
      var ab := a + b;
      assert ComputeStats(ab) == Stats(Total(ab, Gross), Total(ab, Tips), |ab|, Total(ab, Miles));
      assert ComputeStats(a) == Stats(Total(a, Gross), Total(a, Tips), |a|, Total(a, Miles));
      assert ComputeStats(b) == Stats(Total(b, Gross), Total(b, Tips), |b|, Total(b, Miles));
    }
  }

  /** One delivery contributes its gross and tips, and its mileage or nothing. */
  lemma ComputeStatsSingle(log: WebLog)
    ensures ComputeStats([log]) == Stats(log.gross, log.tips, 1, if log.mileage.Some? then log.mileage.value else 0)
  {
    assert [log][..0] == [];
    assert Total([log], Gross) == Total([], Gross) + Gross(log);
    assert Total([log], Tips) == Total([], Tips) + Tips(log);
    assert Total([log], Miles) == Total([], Miles) + Miles(log);
  }

  // ---------------------------------------------------------------- CSV export

  const CsvHeader: seq<string> := ["Date", "Gross", "Tips", "Mileage", "Parsed At"]

  /** JavaScript `Number.prototype.toString` of `v / 100`, for a value with at most two
      decimals: no trailing zeros, no decimal point for whole numbers. */
  function ShowAmount(v: int): (r: string)
    ensures r != []
    ensures ',' !in r && '\n' !in r
  {
    var a: nat := if v < 0 then -v else v;
    var cents := a % 100;
    var fraction :=
      if cents == 0 then ""
      else if cents % 10 == 0 then "." + [DigitChar(cents / 10)]
      else "." + [DigitChar(cents / 10), DigitChar(cents % 10)];
    var whole := NatToString(a / 100);
    assert ',' !in whole && '\n' !in whole by {
      forall i | 0 <= i < |whole| ensures whole[i] != ',' && whole[i] != '\n' {
        assert IsDigit(whole[i]);
      }
    }
    (if v < 0 then "-" else "") + whole + fraction
  }

  /** `log.mileage?.toString() || ''`. */
  function MileageField(m: Option<int>): (r: string)
    ensures r == "" <==> m.None?
  {
    if m.Some? then ShowAmount(m.value) else ""
  }

  function CsvRow(log: WebLog): (r: seq<string>)
    ensures |r| == 5
  {
    [log.orderDate, ShowAmount(log.gross), ShowAmount(log.tips), MileageField(log.mileage), log.parsedAt]
  }

  /** The rows of the export: the header, then one row per log. */
  function CsvRows(logs: seq<WebLog>): (r: seq<seq<string>>)
    ensures |r| == |logs| + 1 && r[0] == CsvHeader
    ensures forall i :: 0 <= i < |logs| ==> r[i + 1] == CsvRow(logs[i])
  {
    [CsvHeader] + seq(|logs|, i requires 0 <= i < |logs| => CsvRow(logs[i]))
  }

  /** Each row joined with commas. */
  function CsvLines(logs: seq<WebLog>): (r: seq<string>)
    ensures |r| == |logs| + 1
  {
    var rows := CsvRows(logs);
    seq(|rows|, i requires 0 <= i < |rows| => Join(rows[i], ","))
  }

  /** The export as the page builds it: lines joined by the two characters `\` and `n`. */
  function CsvAsWritten(logs: seq<WebLog>): string {
    Join(CsvLines(logs), "\\n")
  }

  /** The export with lines joined by a newline character. */
  function CsvContent(logs: seq<WebLog>): string {
    Join(CsvLines(logs), "\n")
  }

  /** The text fields the worker sends contain neither commas nor line breaks. */
  predicate PlainFields(logs: seq<WebLog>) {
    forall i :: 0 <= i < |logs| ==>
      ',' !in logs[i].orderDate && '\n' !in logs[i].orderDate
      && ',' !in logs[i].parsedAt && '\n' !in logs[i].parsedAt
  }

  lemma RowsArePlain(logs: seq<WebLog>, i: nat)
    requires PlainFields(logs) && i <= |logs|
    ensures NoneContains(CsvRows(logs)[i], ',') && NoneContains(CsvRows(logs)[i], '\n')
  {
    var row := CsvRows(logs)[i];
    if i == 0 {
      assert row == CsvHeader;
    } else {
      assert row == CsvRow(logs[i - 1]);
    }
  }

  /** Read back line by line and field by field, the newline-separated export gives the
      header and, for each log, its five fields, the mileage field empty exactly when the
      log has no mileage. */
  lemma {:induction false} CsvContentReadsBack(logs: seq<WebLog>)
    requires PlainFields(logs)
    ensures Split(CsvContent(logs), '\n') == CsvLines(logs)
    ensures |Split(CsvContent(logs), '\n')| == |logs| + 1
    ensures forall i :: 0 <= i <= |logs| ==> Split(CsvLines(logs)[i], ',') == CsvRows(logs)[i]
    ensures forall i :: 0 <= i < |logs| ==> (Split(CsvLines(logs)[i + 1], ',')[3] == "" <==> logs[i].mileage.None?)
  {
    var lines := CsvLines(logs);
    var rows := CsvRows(logs);
    forall i | 0 <= i <= |logs| ensures Split(lines[i], ',') == rows[i] && '\n' !in lines[i] {
      RowsArePlain(logs, i);
      SplitJoin(rows[i], ',');
      JoinAvoids(rows[i], ",", '\n');
    }
    SplitJoin(lines, '\n');
  }

  /** As written, the export contains no line break at all: whatever the number of logs, it
      reads back as a single line. */
  lemma CsvAsWrittenIsOneLine(logs: seq<WebLog>)
    requires PlainFields(logs)
    ensures Split(CsvAsWritten(logs), '\n') == [CsvAsWritten(logs)]
    ensures |logs| > 0 ==> |Split(CsvAsWritten(logs), '\n')| < |Split(CsvContent(logs), '\n')|
  {
    var lines := CsvLines(logs);
    forall i | 0 <= i < |lines| ensures '\n' !in lines[i] {
      RowsArePlain(logs, i);
      JoinAvoids(CsvRows(logs)[i], ",", '\n');
    }
    JoinAvoids(lines, "\\n", '\n');
    CsvContentReadsBack(logs);
  }

  // ---------------------------------------------------------------- load errors

  const PaymentRequiredMessage: string := "payment_required"
  const LoadFailedMessage: string := "Failed to load logs"

  /** The message `fetchLogs` throws for a failed response. */
  function FetchLogsMessage(status: nat, body: string): (r: string)
    ensures r == PaymentRequiredMessage <==> status == 402
  {
    if status == 402 then PaymentRequiredMessage
    else
      var m := "Failed to load logs: " + NatToString(status) + " " + body;
      assert m[0] != PaymentRequiredMessage[0];
      m
  }

  /** The error `loadLogs` records for a thrown error message. */
  function ClassifyLoadError(message: string): (r: string)
    ensures r == PaymentRequiredMessage <==> message == PaymentRequiredMessage
    ensures r == PaymentRequiredMessage || r == LoadFailedMessage
  {
    if message == PaymentRequiredMessage then PaymentRequiredMessage else LoadFailedMessage
  }

  /** End to end, the dashboard records `payment_required` exactly for the worker's
      "payment required" error, and a generic failure for every other error. */
  lemma LoadErrorFromWorker(e: Api.ApiError)
    ensures var (status, body) := e.IntoResponse();
      status >= 0 &&
      (ClassifyLoadError(FetchLogsMessage(status, body)) == PaymentRequiredMessage <==> e == Api.PaymentRequired)
  {
  }

  /** The page's log-loading state. */
  class DashboardState {
    var logs: seq<WebLog>
    var isLoadingLogs: bool
    var error: Option<string>

    constructor ()
      ensures logs == [] && isLoadingLogs && error.None?
    {
      logs, isLoadingLogs, error := [], true, None;
    }

    /** `loadLogs`: with no truthy user id nothing happens (so a fresh page stays in its
        loading state); otherwise the fetch's logs are stored, or its error classified, and
        loading ends. A successful load does not clear an earlier error. */
    method LoadLogs(userId: Option<int>, outcome: Result<seq<WebLog>, string>)
      modifies this
      ensures userId.None? || userId.value == 0 ==>
        logs == old(logs) && isLoadingLogs == old(isLoadingLogs) && error == old(error)
      ensures userId.Some? && userId.value != 0 ==> !isLoadingLogs
      ensures userId.Some? && userId.value != 0 && outcome.Ok? ==> logs == outcome.value && error == old(error)
      ensures userId.Some? && userId.value != 0 && outcome.Err? ==>
        logs == old(logs) && error == Some(ClassifyLoadError(outcome.error))
    {
      if userId.None? || userId.value == 0 {
        return;
      }
      isLoadingLogs := true;
      match outcome {
        case Ok(fetched) =>
          logs := fetched;
        case Err(message) =>
          error := Some(ClassifyLoadError(message));
      }
      isLoadingLogs := false;
    }
  }

  // ---------------------------------------------------------------- rendering

  datatype AuthStatus = Loading | Authenticated | Unauthenticated

  /** The session fields the page reads, after its `|| ''` and `|| false` defaults. */
  datatype SessionInfo = SessionInfo(created: string, paid: bool, lemonPaymentUrl: string)

  /** What the page shows: the loading spinner, nothing, or the dashboard with its optional
      trial banner, header upgrade link, upgrade card (in place of the statistics and the
      table) and CSV button. */
  datatype View =
    | Spinner
    | Blank
    | Page(banner: Option<BannerView>, upgradeLink: bool, upgradeCard: bool, exportButton: bool)

  /** The banner the page passes `trialDays` to: only a non-negative number of days. */
  function BannerFor(t: TrialDays): (r: Option<BannerView>)
    ensures r.Some? <==> t.Days? && 0 <= t.days <= 7
    ensures r.Some? ==> r == TrialBanner(t.days)
  {
    if t.Days? && t.days >= 0 then TrialBanner(t.days) else None
  }

  function Render(status: AuthStatus, state: (seq<WebLog>, bool, Option<string>), session: Option<SessionInfo>,
                  now: Millis, parseDate: string -> Option<Millis>): (r: View)
    ensures r == Spinner <==> status == Loading || state.1
    ensures r.Page? ==> session.Some?
    ensures r.Page? ==> (r.upgradeCard <==> state.2 == Some(PaymentRequiredMessage))
    ensures r.Page? ==> (r.upgradeLink <==> session.value.lemonPaymentUrl != "" && !session.value.paid)
    ensures r.Page? ==> (r.exportButton <==> !r.upgradeCard && |state.0| > 0)
  {
    var (logs, isLoadingLogs, error) := state;
    if status == Loading || isLoadingLogs then Spinner
    else if session.None? then Blank
    else
      var s := session.value;
      var upgradeCard := error == Some(PaymentRequiredMessage);
      Page(BannerFor(ComputeTrialDays(s.created, s.paid, now, parseDate)),
           s.lemonPaymentUrl != "" && !s.paid,
           upgradeCard,
           !upgradeCard && |logs| > 0)
  }

  /** The banner appears exactly for an unpaid user whose creation time parses and whose
      trial has between zero and seven days left; its expired form appears only at zero. */
  lemma BannerShown(status: AuthStatus, state: (seq<WebLog>, bool, Option<string>), s: SessionInfo,
                    now: Millis, parseDate: string -> Option<Millis>)
    requires Render(status, state, Some(s), now, parseDate).Page?
    ensures var r := Render(status, state, Some(s), now, parseDate);
      var t := ComputeTrialDays(s.created, s.paid, now, parseDate);
      && (r.banner.Some? <==> !s.paid && s.created != "" && t.Days? && 0 <= t.days <= 7)
      && (r.banner.Some? && r.banner.value.expired ==> t == Days(0))
  {
  }

  /** A user inside the first day of the trial sees a seven-day, medium-urgency banner. */
  lemma BannerOnFirstDay(status: AuthStatus, state: (seq<WebLog>, bool, Option<string>), s: SessionInfo,
                         createdMs: Millis, now: Millis, parseDate: string -> Option<Millis>)
    requires Render(status, state, Some(s), now, parseDate).Page?
    requires !s.paid && s.created != "" && parseDate(s.created + "Z") == Some(createdMs)
    requires createdMs <= now < createdMs + DAY_MS
    ensures var b := Render(status, state, Some(s), now, parseDate).banner;
      b.Some? && !b.value.expired && b.value.urgency == Medium
  {
    var d := DaysLeft(createdMs, now);
    assert (d - 1) * DAY_MS < createdMs + 7 * DAY_MS - now <= d * DAY_MS;
    assert (d - 1) * DAY_MS < 7 * DAY_MS && d * DAY_MS > 6 * DAY_MS;
  }
}
