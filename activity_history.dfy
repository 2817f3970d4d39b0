/** The activity history list: how long ago an entry happened, as a relative
    label, and the icon, color and description of each logged action. */
module ActivityHistory {
  import opened Text
  import opened JsDate

  // ---------------------------------------------------------------------------
  // Relative time

  const MsPerMinute: int := 60000
  const MsPerHour: int := 3600000

  /** The label `formatTimestamp` gives: nothing, "just now", a whole number of
      minutes, hours or days, or the absolute date (written by the locale formatter). */
  datatype Ago = NoTime | JustNow | MinutesAgo(n: int) | HoursAgo(n: int) | DaysAgo(n: int) | OnDate(at: TimeValue)

  /** `formatTimestamp(timestamp)` at time `now`; `None` is a missing timestamp.
      An invalid Date makes every difference NaN and every comparison false, so it
      falls through to the absolute date. */
  function FormatTimestamp(timestamp: Option<TimeValue>, now: int): (r: Ago)
    ensures r == NoTime <==> timestamp.None?
    ensures r.OnDate? ==> r.at == timestamp.value
    ensures timestamp.Some? && timestamp.value.Invalid? ==> r.OnDate?
    ensures timestamp.Some? && timestamp.value.Time? ==>
      var diff := now - timestamp.value.ms;
      && (r == JustNow <==> diff < MsPerMinute)
      && (r.MinutesAgo? <==> MsPerMinute <= diff < MsPerHour)
      && (r.HoursAgo? <==> MsPerHour <= diff < MsPerDay)
      && (r.DaysAgo? <==> MsPerDay <= diff < 7 * MsPerDay)
      && (r.OnDate? <==> 7 * MsPerDay <= diff)
    ensures r.MinutesAgo? ==> 1 <= r.n < 60 && r.n * MsPerMinute <= now - timestamp.value.ms < (r.n + 1) * MsPerMinute
    ensures r.HoursAgo? ==> 1 <= r.n < 24 && r.n * MsPerHour <= now - timestamp.value.ms < (r.n + 1) * MsPerHour
    ensures r.DaysAgo? ==> 1 <= r.n < 7 && r.n * MsPerDay <= now - timestamp.value.ms < (r.n + 1) * MsPerDay
  {
    if timestamp.None? then NoTime
    else if timestamp.value.Invalid? then OnDate(timestamp.value)
    else
      var diffMs := now - timestamp.value.ms;
      var diffMins := diffMs / MsPerMinute;
      var diffHours := diffMs / MsPerHour;
      var diffDays := diffMs / MsPerDay;
      if diffMins < 1 then JustNow
      else if diffMins < 60 then MinutesAgo(diffMins)
      else if diffHours < 24 then HoursAgo(diffHours)
      else if diffDays < 7 then DaysAgo(diffDays)
      else OnDate(timestamp.value)
  }

  /** "N unit ago", with the plural `s` when N is more than one. */
  function Counted(n: int, unit: string): string {
    (if n >= 0 then NatText(n) else IntText(n)) + " " + unit + (if n > 1 then "s" else "") + " ago"
  }

  /** The text of a relative label; `None` for the absolute date, which the locale formatter writes. */
  function AgoText(a: Ago): (r: Option<string>)
    ensures r.None? <==> a.OnDate?
  {
    match a
    case NoTime => Some("")
    case JustNow => Some("just now")
    case MinutesAgo(n) => Some(Counted(n, "minute"))
    case HoursAgo(n) => Some(Counted(n, "hour"))
    case DaysAgo(n) => Some(Counted(n, "day"))
    case OnDate(_) => None
  }

  /** A number label never reads "0 …", and its unit is plural exactly when the number is above one. */
  lemma CountedLabels(timestamp: Option<TimeValue>, now: int)
    ensures var a := FormatTimestamp(timestamp, now);
      a.MinutesAgo? || a.HoursAgo? || a.DaysAgo? ==>
        var text := AgoText(a).value;
        && text[0] != '0'
        && text[..|NatText(a.n)|] == NatText(a.n)
        && (text[|text| - 5..] == "s ago" <==> a.n > 1)
  {
    var a := FormatTimestamp(timestamp, now);
    if a.MinutesAgo? || a.HoursAgo? || a.DaysAgo? {
      var unit := if a.MinutesAgo? then "minute" else if a.HoursAgo? then "hour" else "day";
      var text := AgoText(a).value;
      assert text == NatText(a.n) + " " + unit + (if a.n > 1 then "s" else "") + " ago";
      assert text[..|NatText(a.n)|] == NatText(a.n);
      assert text[0] == NatText(a.n)[0];
      if a.n <= 1 {
        var pre := NatText(a.n) + " " + unit;
        assert text == pre + " ago";
        assert text[|text| - 5] == pre[|pre| - 1] == unit[|unit| - 1] != 's';
        assert "s ago"[0] == 's';
      }
    }
  }

  /** Later times never give a younger label: the labels order as the elapsed time does. */
  function Rank(a: Ago): (r: int)
  {
    match a
    case NoTime => 0
    case JustNow => 1
    case MinutesAgo(n) => 100 + n
    case HoursAgo(n) => 200 + n
    case DaysAgo(n) => 300 + n
    case OnDate(_) => 400
  }

  lemma FormatTimestampMonotone(t: int, now1: int, now2: int)
    requires now1 <= now2
    ensures Rank(FormatTimestamp(Some(Time(t)), now1)) <= Rank(FormatTimestamp(Some(Time(t)), now2))
  {
  }

  // ---------------------------------------------------------------------------
  // Actions

  /** `getActionIcon(action)`. */
  function ActionIcon(action: string): (r: string)
    ensures action != "add" && action != "delete" && action != "update" ==> r == DefaultIcon
  {
    if action == "add" then "\U{2795}"
    else if action == "delete" then "\U{1F5D1}\U{FE0F}"
    else if action == "update" then "\U{270F}\U{FE0F}"
    else DefaultIcon
  }

  const DefaultIcon: string := "\U{1F4DD}"

  /** `getActionColor(action)`. */
  function ActionColor(action: string): (r: string)
    ensures action != "add" && action != "delete" && action != "update" ==> r == DefaultColor
  {
    if action == "add" then "text-green-600"
    else if action == "delete" then "text-red-600"
    else if action == "update" then "text-blue-600"
    else DefaultColor
  }

  const DefaultColor: string := "text-gray-600"

  /** The three known actions get three different icons and colors, none of them the fallback. */
  lemma KnownActionsDistinct()
    ensures var icons := [ActionIcon("add"), ActionIcon("delete"), ActionIcon("update"), DefaultIcon];
      forall i, j :: 0 <= i < j < 4 ==> icons[i] != icons[j]
    ensures var colors := [ActionColor("add"), ActionColor("delete"), ActionColor("update"), DefaultColor];
      forall i, j :: 0 <= i < j < 4 ==> colors[i] != colors[j]
  {
    var icons := [ActionIcon("add"), ActionIcon("delete"), ActionIcon("update"), DefaultIcon];
    assert icons[0][0] == '\U{2795}' && icons[1][0] == '\U{1F5D1}' && icons[2][0] == '\U{270F}' && icons[3][0] == '\U{1F4DD}';
    var colors := [ActionColor("add"), ActionColor("delete"), ActionColor("update"), DefaultColor];
    assert colors[0][5] == 'g' && colors[1][5] == 'r' && colors[2][5] == 'b' && colors[3][5] == 'g';
    assert colors[0][7] == 'e' && colors[3][7] == 'a';
  }

  /** What an activity record carries: its action and the expense details. */
  datatype Details = Details(description: Option<string>, amount: Option<int>, payer: Option<string>)

  datatype Activity = Activity(action: string, details: Option<Details>)

  /** The description `getActionDescription` renders: the verb, the expense's
      description, the amount when it is non-zero, and the payer when it is
      non-empty; an unrecognised action reads "Unknown action". */
  datatype Description =
    | Added(description: Option<string>, amount: Option<int>, paidBy: Option<string>)
    | Deleted(description: Option<string>, amount: Option<int>, paidBy: Option<string>)
    | Updated(description: Option<string>)
    | UnknownAction

  /** `details?.amount ? … : ''`: a missing or zero amount is not shown. */
  function ShownAmount(d: Option<Details>): (r: Option<int>)
    ensures r.Some? <==> d.Some? && d.value.amount.Some? && d.value.amount.value != 0
    ensures r.Some? ==> r.value == d.value.amount.value
  {
    if d.Some? && d.value.amount.Some? && d.value.amount.value != 0 then d.value.amount else None
  }

  /** `details?.payer && …`: an empty or missing payer is not shown. */
  function ShownPayer(d: Option<Details>): (r: Option<string>)
    ensures r.Some? <==> d.Some? && d.value.payer.Some? && d.value.payer.value != ""
    ensures r.Some? ==> r.value == d.value.payer.value
  {
    if d.Some? && d.value.payer.Some? && d.value.payer.value != "" then d.value.payer else None
  }

  function DescriptionOf(d: Option<Details>): Option<string> {
    if d.Some? then d.value.description else None
  }

  /** `getActionDescription(activity)`. */
  function ActionDescription(activity: Activity): (r: Description)
    ensures r == UnknownAction <==> activity.action !in {"add", "delete", "update"}
    ensures r.Added? <==> activity.action == "add"
    ensures r.Deleted? <==> activity.action == "delete"
    ensures r.Updated? <==> activity.action == "update"
    ensures r.Added? || r.Deleted? ==>
      r.amount == ShownAmount(activity.details) && r.paidBy == ShownPayer(activity.details)
    ensures !r.UnknownAction? ==> r.description == DescriptionOf(activity.details)
  {
    var details := activity.details;
    if activity.action == "add" then Added(DescriptionOf(details), ShownAmount(details), ShownPayer(details))
    else if activity.action == "delete" then Deleted(DescriptionOf(details), ShownAmount(details), ShownPayer(details))
    else if activity.action == "update" then Updated(DescriptionOf(details))
    else UnknownAction
  }

  /** The text of a description, with the currency formatter as a parameter; JSX drops
      the line break between the amount and the payer, and an undefined value renders empty. */
  function DescriptionText(d: Description, money: int -> string): (r: string)
    ensures d == UnknownAction ==> r == "Unknown action"
  {
    var desc := if d.UnknownAction? || d.description.None? then "" else d.description.value;
    match d
    case Added(_, amount, paidBy) =>
      "Added expense: " + desc + " for " + (if amount.Some? then money(amount.value) else "")
        + (if paidBy.Some? then " (paid by " + paidBy.value + ")" else "")
    case Deleted(_, amount, paidBy) =>
      "Deleted expense: " + desc + " for " + (if amount.Some? then money(amount.value) else "")
        + (if paidBy.Some? then " (was paid by " + paidBy.value + ")" else "")
    case Updated(_) => "Updated expense: " + desc
    case UnknownAction => "Unknown action"
  }

  /** A description text starts with the verb of its action. */
  lemma DescriptionStartsWithVerb(activity: Activity, money: int -> string)
    ensures var text := DescriptionText(ActionDescription(activity), money);
      && (activity.action == "add" ==> text[..15] == "Added expense: ")
      && (activity.action == "delete" ==> text[..17] == "Deleted expense: ")
      && (activity.action == "update" ==> text[..17] == "Updated expense: ")
  {
  }
}
