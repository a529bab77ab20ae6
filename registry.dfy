/** The vocabulary shared by the pages: the five complaint statuses, the four
    priority levels, and the status-badge table. The admin dashboard, the
    citizen dashboard and the tracking page each declare identical copies of
    `statusBadges`, so the table is defined once here; the admin complaint
    detail page keeps its own, larger table and is not part of this model.
    Colours are the CSS class strings of the source, icons are opaque tags. */
module Registry {
  import opened Wrappers

  /** `StatusKey`: the closed set of complaint statuses. */
  datatype StatusKey = Pending | Received | InProgress | Resolved | Rejected

  /** The string value each status has in the data. */
  function StatusName(k: StatusKey): string
  {
    match k
    case Pending => "pending"
    case Received => "received"
    case InProgress => "in_progress"
    case Resolved => "resolved"
    case Rejected => "rejected"
  }

  /** Reads a status string back; `None` for any string that is not one of the five
      keys (for example the `"submitted"` entries of an update history). */
  function ParseStatus(s: string): (r: Option<StatusKey>)
    ensures r.Some? ==> StatusName(r.value) == s
    ensures r.None? <==> forall k: StatusKey :: StatusName(k) != s
  {
    if s == "pending" then Some(Pending)
    else if s == "received" then Some(Received)
    else if s == "in_progress" then Some(InProgress)
    else if s == "resolved" then Some(Resolved)
    else if s == "rejected" then Some(Rejected)
    else None
  }

  /** Parsing undoes naming, so distinct statuses have distinct names. */
  lemma ParseStatusName(k: StatusKey)
    ensures ParseStatus(StatusName(k)) == Some(k)
  {
  }

  /** `PriorityLevel`. */
  datatype Priority = Critical | High | Medium | Low

  function PriorityName(p: Priority): string
  {
    match p
    case Critical => "critical"
    case High => "high"
    case Medium => "medium"
    case Low => "low"
  }

  /** Icon components, as opaque tags. */
  datatype Icon = ClockIcon | EnvelopeIcon | CheckCircleIcon | ExclamationTriangleIcon

  datatype Badge = Badge(color: string, icon: Icon, text: string)

  /** `statusBadges`: defined for every status key. The clock marks the two
      statuses on which work is pending or under way, a tick the resolved one
      and a warning the rejected one. */
  function StatusBadge(k: StatusKey): (b: Badge)
    ensures b.icon == ClockIcon <==> k == Pending || k == InProgress
    ensures b.icon == CheckCircleIcon <==> k == Resolved
    ensures b.icon == ExclamationTriangleIcon <==> k == Rejected
  {
    match k
    case Pending => Badge("bg-yellow-100 text-yellow-800", ClockIcon, "Pending")
    case Received => Badge("bg-blue-100 text-blue-800", EnvelopeIcon, "Received")
    case InProgress => Badge("bg-indigo-100 text-indigo-800", ClockIcon, "In Progress")
    case Resolved => Badge("bg-green-100 text-green-800", CheckCircleIcon, "Resolved")
    case Rejected => Badge("bg-red-100 text-red-800", ExclamationTriangleIcon, "Rejected")
  }

  /** Different statuses are shown with different texts and different colours
      (icons are shared: pending and in-progress both use the clock). */
  lemma StatusBadgesDistinct(a: StatusKey, b: StatusKey)
    requires a != b
    ensures StatusBadge(a).text != StatusBadge(b).text
    ensures StatusBadge(a).color != StatusBadge(b).color
  {
  }
}
