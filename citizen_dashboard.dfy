/** The citizen dashboard: the tab filter over the citizen's complaints, the
    summary counts, and the unread-notification counter. */
module CitizenDashboard {
  import opened Registry
  import opened Seqs

  /** A complaint as the citizen dashboard holds it. */
  datatype CitizenComplaint = CitizenComplaint(
    id: string,
    title: string,
    category: string,
    status: StatusKey,
    createdAt: string,
    updatedAt: string,
    agency: string)

  datatype Notification = Notification(
    id: int,
    message: string,
    read: bool,
    date: string,
    kind: string,
    relatedId: string)

  /** The status strings the "active" tab and the "Active Complaints" figure accept. */
  const ActiveStatuses: seq<string> := ["pending", "received", "in_progress"]

  /** Which statuses a tab shows, stated over the status enumeration. */
  predicate TabShows(tab: string, s: StatusKey)
  {
    match tab
    case "active" => s == Pending || s == Received || s == InProgress
    case "resolved" => s == Resolved
    case "rejected" => s == Rejected
    case _ => true
  }

  /** The callback of `filteredComplaints` for the selected tab: it keeps a
      complaint exactly when the tab shows its status. */
  function TabKeep(tab: string): (keep: CitizenComplaint -> bool)
    ensures forall c :: keep(c) == TabShows(tab, c.status)
  {
    (c: CitizenComplaint) =>
      if tab == "all" then true
      else if tab == "active" then StatusName(c.status) in ActiveStatuses
      else if tab == "resolved" then StatusName(c.status) == "resolved"
      else if tab == "rejected" then StatusName(c.status) == "rejected"
      else true
  }

  /** `filteredComplaints`: every complaint whose status the tab shows, as often
      as it occurs in the list, and no other. */
  function FilterByTab(complaints: seq<CitizenComplaint>, tab: string): (shown: seq<CitizenComplaint>)
    ensures forall c :: multiset(shown)[c] == if TabShows(tab, c.status) then multiset(complaints)[c] else 0
  {
    assert forall c :: multiset(Filter(complaints, TabKeep(tab)))[c]
                       == if TabShows(tab, c.status) then multiset(complaints)[c] else 0 by {
      forall c ensures multiset(Filter(complaints, TabKeep(tab)))[c]
                       == if TabShows(tab, c.status) then multiset(complaints)[c] else 0 {
        FilterCount(complaints, TabKeep(tab), c);
      }
    }
    Filter(complaints, TabKeep(tab))
  }

  /** A complaint is under a tab iff it is in the list and the tab shows its status:
      "active" is exactly pending, received and in progress; "resolved" and
      "rejected" are exactly that status; "all" and any other value show everything. */
  lemma FilterByTabKeepsIff(complaints: seq<CitizenComplaint>, tab: string, c: CitizenComplaint)
    ensures c in FilterByTab(complaints, tab) <==> c in complaints && TabShows(tab, c.status)
  {
    assert TabKeep(tab)(c) == TabShows(tab, c.status);
  }

  /** The "all" tab, and any tab value the page does not know, list every complaint
      in order. */
  lemma UnfilteredTabs(complaints: seq<CitizenComplaint>, tab: string)
    requires tab != "active" && tab != "resolved" && tab != "rejected"
    ensures FilterByTab(complaints, tab) == complaints
  {
    FilterKeepsAll(complaints, TabKeep(tab));
  }

  /** The "active", "resolved" and "rejected" tabs partition the list: no complaint
      appears under two of them and together they hold every complaint. */
  lemma {:induction false} TabsPartition(complaints: seq<CitizenComplaint>)
    ensures |FilterByTab(complaints, "active")| + |FilterByTab(complaints, "resolved")|
            + |FilterByTab(complaints, "rejected")| == |complaints|
    ensures forall c :: c in complaints ==>
              (if c in FilterByTab(complaints, "active") then 1 else 0)
              + (if c in FilterByTab(complaints, "resolved") then 1 else 0)
              + (if c in FilterByTab(complaints, "rejected") then 1 else 0) == 1
  {
    TabSizesAddUp(complaints);
    forall c | c in complaints
      ensures (if c in FilterByTab(complaints, "active") then 1 else 0)
              + (if c in FilterByTab(complaints, "resolved") then 1 else 0)
              + (if c in FilterByTab(complaints, "rejected") then 1 else 0) == 1
    {
      FilterByTabKeepsIff(complaints, "active", c);
      FilterByTabKeepsIff(complaints, "resolved", c);
      FilterByTabKeepsIff(complaints, "rejected", c);
    }
  }

  /** The sizes of the three filtered lists add up to the size of the list. */
  lemma {:induction false} TabSizesAddUp(complaints: seq<CitizenComplaint>)
    ensures |Filter(complaints, TabKeep("active"))| + |Filter(complaints, TabKeep("resolved"))|
            + |Filter(complaints, TabKeep("rejected"))| == |complaints|
  {
    if complaints != [] {
      TabSizesAddUp(complaints[1..]);
      FilterCons(complaints, TabKeep("active"));
      FilterCons(complaints, TabKeep("resolved"));
      FilterCons(complaints, TabKeep("rejected"));
      var c := complaints[0];
      assert TabKeep("active")(c) == TabShows("active", c.status);
      assert TabKeep("resolved")(c) == TabShows("resolved", c.status);
      assert TabKeep("rejected")(c) == TabShows("rejected", c.status);
    }
  }

  /** The "Active Complaints" figure: computed by its own filter, it equals the
      number of complaints under the "active" tab. */
  function ActiveComplaintsCount(complaints: seq<CitizenComplaint>): (n: nat)
    ensures n == |FilterByTab(complaints, "active")|
  {
    var isActive := (c: CitizenComplaint) => StatusName(c.status) in ActiveStatuses;
    FilterExtensional(complaints, isActive, TabKeep("active"));
    |Filter(complaints, isActive)|
  }

  /** The "Resolved Complaints" figure: equal to the size of the "resolved" tab. */
  function ResolvedComplaintsCount(complaints: seq<CitizenComplaint>): (n: nat)
    ensures n == |FilterByTab(complaints, "resolved")|
  {
    var isResolved := (c: CitizenComplaint) => c.status == Resolved;
    FilterExtensional(complaints, isResolved, TabKeep("resolved"));
    |Filter(complaints, isResolved)|
  }

  /** The unread notifications. */
  function IsUnread(): Notification -> bool
  {
    (n: Notification) => !n.read
  }

  /** The initial value of `activeNotifications`. */
  function UnreadCount(notifications: seq<Notification>): (n: nat)
    ensures n <= |notifications|
    ensures n == 0 <==> forall x :: x in notifications ==> x.read
  {
    var unread := Filter(notifications, IsUnread());
    assert unread != [] ==> unread[0] in unread;
    |Filter(notifications, IsUnread())|
  }

  /** The larger of two integers. */
  function Max(a: int, b: int): int
  {
    if a < b then b else a
  }

  /** The counter after a click on notification `n`: only an unread notification
      calls `markNotificationAsRead`, and that call decrements, clamped at 0. The
      `read` flag of the notification itself is never changed. */
  function AfterClick(counter: int, n: Notification): (r: int)
    ensures counter >= 0 ==> 0 <= r <= counter
    ensures n.read ==> r == counter
    ensures !n.read && counter > 0 ==> r == counter - 1
  {
    if !n.read then Max(0, counter - 1) else counter
  }

  /** The counter after a series of clicks, oldest first. */
  function AfterClicks(counter: int, clicks: seq<Notification>): (r: int)
    ensures counter >= 0 ==> 0 <= r <= counter
    decreases |clicks|
  {
    if clicks == [] then counter else AfterClicks(AfterClick(counter, clicks[0]), clicks[1..])
  }

  /** The notification badge of the dashboard: the `activeNotifications` state. */
  class NotificationBadge {
    var activeNotifications: int

    ghost predicate Valid()
      reads this
    {
      activeNotifications >= 0
    }

    /** The counter starts at the number of unread notifications. */
    constructor (notifications: seq<Notification>)
      ensures Valid()
      ensures activeNotifications == UnreadCount(notifications)
    {
      activeNotifications := UnreadCount(notifications);
    }

    /** `markNotificationAsRead`: the id is ignored; the counter drops by one and
        never below 0. */
    method MarkNotificationAsRead(id: int)
      requires Valid()
      modifies this
      ensures Valid()
      ensures activeNotifications == Max(0, old(activeNotifications) - 1)
      ensures old(activeNotifications) > 0 ==> activeNotifications == old(activeNotifications) - 1
      ensures old(activeNotifications) == 0 ==> activeNotifications == 0
    {
      activeNotifications := Max(0, activeNotifications - 1);
    }

    /** A click on a notification link: only an unread notification calls
        `markNotificationAsRead`. */
    method ClickNotification(n: Notification)
      requires Valid()
      modifies this
      ensures Valid()
      ensures activeNotifications == AfterClick(old(activeNotifications), n)
    {
      if !n.read {
        MarkNotificationAsRead(n.id);
      }
    }
  }

  /** Pairwise-distinct notification ids. */
  ghost predicate DistinctIds(ns: seq<Notification>)
  {
    forall i, j :: 0 <= i < j < |ns| ==> ns[i].id != ns[j].id
  }

  /** The counter as intended: it remembers which notifications were seen, so a
      notification is counted off at most once. */
  datatype CounterState = CounterState(unread: nat, seen: set<int>)

  function CorrectedClick(st: CounterState, n: Notification): CounterState
  {
    if !n.read && n.id !in st.seen
    then CounterState(if st.unread == 0 then 0 else st.unread - 1, st.seen + {n.id})
    else st
  }

  function CorrectedClicks(st: CounterState, clicks: seq<Notification>): CounterState
    decreases |clicks|
  {
    if clicks == [] then st else CorrectedClicks(CorrectedClick(st, clicks[0]), clicks[1..])
  }

  /** Unread notifications that have not been seen. */
  function Unseen(seen: set<int>): Notification -> bool
  {
    (n: Notification) => !n.read && n.id !in seen
  }

  /** Opening one unread, not-yet-seen notification removes exactly one entry
      from the unseen ones, because ids are distinct. */
  lemma {:induction false} OpenOne(ns: seq<Notification>, seen: set<int>, x: Notification)
    requires DistinctIds(ns) && x in ns && !x.read && x.id !in seen
    ensures |Filter(ns, Unseen(seen + {x.id}))| + 1 == |Filter(ns, Unseen(seen))|
  {
    assert ns == [ns[0]] + ns[1..];
    var rest := ns[1..];
    assert DistinctIds(rest) by {
      forall i, j | 0 <= i < j < |rest| ensures rest[i].id != rest[j].id {
        assert rest[i] == ns[i + 1] && rest[j] == ns[j + 1];
      }
    }
    if ns[0] == x {
      forall y | y in rest ensures Unseen(seen + {x.id})(y) == Unseen(seen)(y) {
        var k :| 0 <= k < |rest| && rest[k] == y;
        assert ns[k + 1] == y;
      }
      FilterExtensional(rest, Unseen(seen + {x.id}), Unseen(seen));
    } else {
      assert x in rest;
      OpenOne(rest, seen, x);
    }
  }

  /** The corrected counter always equals the number of unread notifications not
      yet seen, whatever the clicks (each on a listed notification). */
  lemma {:induction false} CorrectedCounterCountsUnseen(
    ns: seq<Notification>, st: CounterState, clicks: seq<Notification>)
    requires DistinctIds(ns)
    requires forall c :: c in clicks ==> c in ns
    requires st.unread == |Filter(ns, Unseen(st.seen))|
    ensures var final := CorrectedClicks(st, clicks);
            final.unread == |Filter(ns, Unseen(final.seen))|
    decreases |clicks|
  {
    if clicks != [] {
      var n := clicks[0];
      var next := CorrectedClick(st, n);
      if !n.read && n.id !in st.seen {
        OpenOne(ns, st.seen, n);
      }
      assert next.unread == |Filter(ns, Unseen(next.seen))|;
      assert forall c :: c in clicks[1..] ==> c in clicks;
      CorrectedCounterCountsUnseen(ns, next, clicks[1..]);
    }
  }

  /** The corrected counter starts where the page starts: at the unread count. */
  lemma InitialCounterIsUnseen(ns: seq<Notification>)
    ensures UnreadCount(ns) == |Filter(ns, Unseen({}))|
  {
    FilterExtensional(ns, IsUnread(), Unseen({}));
  }

  // The texts of the sample notifications.
  const StatusUpdatedMessage: string := "Your complaint (CMP123456) status has been updated to \"In Progress\""
  const CommentAddedMessage: string := "Department of Public Works has added a comment to your complaint (CMP123456)"
  const ResolvedMessage: string := "Your complaint (CMP654321) has been resolved"
  const InformationRequestMessage: string := "Please provide additional information for your complaint (CMP789012) regarding Waste Management"
  const RejectedMessage: string := "Your complaint (CMP901234) has been rejected. Click to see details."

  /** The sample notifications: the first two are unread. */
  function SampleNotifications(): seq<Notification>
  {
    [ Notification(1, StatusUpdatedMessage, false,
        "2025-05-17T14:20:00Z", "status_update", "CMP123456"),
      Notification(2, CommentAddedMessage, false,
        "2025-05-16T09:30:00Z", "comment", "CMP123456"),
      Notification(3, ResolvedMessage, true,
        "2025-05-14T16:30:00Z", "status_update", "CMP654321"),
      Notification(4, InformationRequestMessage, true,
        "2025-05-19T16:45:00Z", "information_request", "CMP789012"),
      Notification(5, RejectedMessage, true,
        "2025-05-07T10:45:00Z", "status_update", "CMP901234") ]
  }

  /** Two of the sample notifications are unread. */
  lemma SampleUnreadCount()
    ensures UnreadCount(SampleNotifications()) == 2
  {
    var ns := SampleNotifications();
    var n0, n1, n2, n3, n4 := ns[0], ns[1], ns[2], ns[3], ns[4];
    assert ns == [n0, n1, n2, n3, n4];
    assert Filter([n4], IsUnread()) == [];
    assert Filter([n3, n4], IsUnread()) == [];
    assert Filter([n2, n3, n4], IsUnread()) == [];
    assert Filter([n1, n2, n3, n4], IsUnread()) == [n1];
    assert Filter(ns, IsUnread()) == [n0, n1];
  }

  /** As written, opening the same unread notification twice (for instance with
      a modifier-click, which keeps the dashboard open) while two are unread drops
      the badge to 0, although the other unread notification has never been
      seen; the corrected counter still shows 1. */
  lemma DoubleClickHidesUnread(ns: seq<Notification>, x: Notification)
    requires DistinctIds(ns) && x in ns && !x.read && UnreadCount(ns) == 2
    ensures AfterClicks(UnreadCount(ns), [x, x]) == 0
    ensures exists y :: y in ns && !y.read && y.id != x.id
    ensures CorrectedClicks(CounterState(UnreadCount(ns), {}), [x, x]).unread == 1
  {
    assert [x, x][1..] == [x];
    assert AfterClicks(2, [x, x]) == AfterClicks(1, [x]) == AfterClicks(0, []) == 0;
    InitialCounterIsUnseen(ns);
    OpenOne(ns, {}, x);
    var left := Filter(ns, Unseen({} + {x.id}));
    assert left[0] in left;
    var once := CounterState(1, {x.id});
    assert CorrectedClick(CounterState(2, {}), x) == once;
    assert CorrectedClick(once, x) == once;
    assert CorrectedClicks(CounterState(2, {}), [x, x]) == CorrectedClicks(once, [x]);
    assert CorrectedClicks(once, [x]) == CorrectedClicks(once, []);
  }
}
