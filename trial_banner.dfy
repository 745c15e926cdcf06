/** The dashboard's trial banner: whether it shows, whether it is in its expired state,
    how urgent it looks, and the texts it displays. */
module Banner {
  import opened Wrappers
  import opened Text

  datatype Urgency = High | Medium

  /** What the banner component renders: its state, its urgency, the status line and the
      explanatory message. */
  datatype BannerView = BannerView(expired: bool, urgency: Urgency, statusText: string, message: string)

  const ExpiredStatus: string := "Trial Expired"
  const ExpiredMessage: string := "Upgrade now to continue tracking your earnings automatically"
  const ActiveMessage: string := "Upgrade to continue enjoying automatic earnings tracking after your trial ends"

  /** The status line for a trial that has not expired: `"<n> day remaining in trial"` for
      one day and `"<n> days remaining in trial"` otherwise. */
  function RemainingText(days: nat): (r: string)
    ensures StartsWith(r, NatToString(days) + " ")
  {
    NatToString(days) + " " + (if days == 1 then "day" else "days") + " remaining in trial"
  }

  /** `TrialBanner`: nothing above seven days; otherwise expired at zero or below, high
      urgency at two days or fewer. */
  function TrialBanner(daysRemaining: int): (r: Option<BannerView>)
    ensures r.None? <==> daysRemaining > 7
    ensures r.Some? ==> (r.value.expired <==> daysRemaining <= 0)
    ensures r.Some? ==> (r.value.urgency == High <==> daysRemaining <= 2)
    ensures r.Some? && r.value.expired ==> r.value.statusText == ExpiredStatus && r.value.message == ExpiredMessage
    ensures r.Some? && !r.value.expired ==> r.value.message == ActiveMessage
  {
    if daysRemaining > 7 then None
    else
      var expired := daysRemaining <= 0;
      var urgency := if daysRemaining <= 2 then High else Medium;
      Some(BannerView(
        expired,
        urgency,
        if expired then ExpiredStatus else RemainingText(daysRemaining),
        if expired then ExpiredMessage else ActiveMessage))
  }

  /** A banner for one to seven days is live, and its status line spells the remaining
      days, in the singular for one day. */
  lemma ActiveStatusText(d: int)
    requires 1 <= d <= 7
    ensures TrialBanner(d) == Some(BannerView(false, if d <= 2 then High else Medium, RemainingText(d), ActiveMessage))
    ensures RemainingText(d) ==
      NatToString(d) + (if d == 1 then " day remaining in trial" else " days remaining in trial")
  {
    SpelledStatus(d);
  }

  lemma SpelledStatus(d: nat)
    ensures RemainingText(d) ==
      NatToString(d) + (if d == 1 then " day remaining in trial" else " days remaining in trial")
  {
    var n := NatToString(d);
    if d == 1 {
      assert n + " " + "day" + " remaining in trial" == n + " day remaining in trial";
    } else {
      assert n + " " + "days" + " remaining in trial" == n + " days remaining in trial";
    }
  }

  /** The status line tells the days apart: two live banners with the same status line count
      the same number of days. */
  lemma {:induction false} StatusTextDistinguishesDays(d1: int, d2: int)
    requires 1 <= d1 <= 7 && 1 <= d2 <= 7
    requires TrialBanner(d1).value.statusText == TrialBanner(d2).value.statusText
    ensures d1 == d2
  {
    var s1, s2 := NatToString(d1), NatToString(d2);
    var t := RemainingText(d1);
    assert t == RemainingText(d2);
    assert ' ' !in s1 by { NoSpaceInDigits(s1); }
    assert ' ' !in s2 by { NoSpaceInDigits(s2); }
    assert t == s1 + [' '] + t[|s1| + 1..];
    assert t == s2 + [' '] + t[|s2| + 1..];
    IndexOfCharAfter(s1, ' ', t[|s1| + 1..]);
    IndexOfCharAfter(s2, ' ', t[|s2| + 1..]);
    assert s1 == t[..|s1|] == s2;
    NatToStringInjective(d1, d2);
  }

  lemma NoSpaceInDigits(s: string)
    requires forall i :: 0 <= i < |s| ==> IsDigit(s[i])
    ensures ' ' !in s
  {
    forall i | 0 <= i < |s| ensures s[i] != ' ' {
      assert IsDigit(s[i]);
    }
  }
}
