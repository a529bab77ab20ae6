/** The administrator dashboard: the three drop-down filters over the complaint
    table, the priority dot colour and the "Showing N complaints" counter. */
module AdminDashboard {
  import opened Registry
  import opened Seqs

  /** A complaint row as the admin dashboard holds it. */
  datatype AdminComplaint = AdminComplaint(
    id: string,
    title: string,
    category: string,
    location: string,
    status: StatusKey,
    priority: Priority,
    createdAt: string,
    updatedAt: string,
    agency: string,
    citizenName: string,
    citizenContact: string)

  /** The value every drop-down starts with and that lifts its constraint. */
  const All: string := "all"

  /** `PriorityIndicator`: the colour of the priority dot for a priority value. */
  function PriorityColor(priority: string): (color: string)
    ensures color in {"bg-red-600", "bg-orange-500", "bg-yellow-500", "bg-green-500", "bg-gray-400"}
    ensures color == "bg-gray-400" <==> priority !in {"critical", "high", "medium", "low"}
  {
    match priority
    case "critical" => "bg-red-600"
    case "high" => "bg-orange-500"
    case "medium" => "bg-yellow-500"
    case "low" => "bg-green-500"
    case _ => "bg-gray-400"
  }

  /** The four priority levels get four different colours, none of them the grey
      reserved for unknown values. */
  lemma PriorityColorsDistinct(p: Priority, q: Priority)
    ensures PriorityColor(PriorityName(p)) != "bg-gray-400"
    ensures p != q ==> PriorityColor(PriorityName(p)) != PriorityColor(PriorityName(q))
  {
  }

  /** The three drop-down criteria, combined by conjunction; `All` lifts a criterion.
      Category matches exactly (case and spacing included). */
  predicate Matches(c: AdminComplaint, status: string, priority: string, category: string)
  {
    && (status == All || StatusName(c.status) == status)
    && (priority == All || PriorityName(c.priority) == priority)
    && (category == All || c.category == category)
  }

  /** The callback handed to `complaints.filter`, written as the source writes it:
      one early rejection per criterion. */
  function KeepRow(status: string, priority: string, category: string): (keep: AdminComplaint -> bool)
    ensures forall c :: keep(c) == Matches(c, status, priority, category)
  {
    (c: AdminComplaint) =>
      if status != All && StatusName(c.status) != status then false
      else if priority != All && PriorityName(c.priority) != priority then false
      else if category != All && c.category != category then false
      else true
  }

  /** `filteredComplaints`: every matching row as often as it occurs in the
      table, and no other row. */
  function FilterComplaints(complaints: seq<AdminComplaint>, status: string, priority: string, category: string)
    : (shown: seq<AdminComplaint>)
    ensures forall c :: multiset(shown)[c]
                        == if Matches(c, status, priority, category) then multiset(complaints)[c] else 0
  {
    assert forall c :: multiset(Filter(complaints, KeepRow(status, priority, category)))[c]
                       == if Matches(c, status, priority, category) then multiset(complaints)[c] else 0 by {
      forall c ensures multiset(Filter(complaints, KeepRow(status, priority, category)))[c]
                       == if Matches(c, status, priority, category) then multiset(complaints)[c] else 0 {
        FilterCount(complaints, KeepRow(status, priority, category), c);
      }
    }
    Filter(complaints, KeepRow(status, priority, category))
  }

  /** A complaint is listed iff it is in the input and every criterion that is not
      `All` matches it. */
  lemma FilterComplaintsKeepsIff(
    complaints: seq<AdminComplaint>, status: string, priority: string, category: string, c: AdminComplaint)
    ensures c in FilterComplaints(complaints, status, priority, category)
        <==> c in complaints && Matches(c, status, priority, category)
  {
  }

  /** The listed complaints keep the order of the input, and nothing is added. */
  lemma FilterComplaintsIsSubsequence(
    complaints: seq<AdminComplaint>, status: string, priority: string, category: string)
    ensures IsSubsequence(FilterComplaints(complaints, status, priority, category), complaints)
  {
    FilterIsSubsequence(complaints, KeepRow(status, priority, category));
  }

  /** With every drop-down on "all" the whole table is listed. */
  lemma FilterAllIsIdentity(complaints: seq<AdminComplaint>)
    ensures FilterComplaints(complaints, All, All, All) == complaints
  {
    FilterKeepsAll(complaints, KeepRow(All, All, All));
  }

  /** Tightening criteria (moving any of them from `All` to a value) never lists
      more rows: the tighter result is a subsequence of the looser one. */
  lemma FilterTightening(
    complaints: seq<AdminComplaint>,
    status: string, priority: string, category: string,
    looseStatus: string, loosePriority: string, looseCategory: string)
    requires looseStatus == All || looseStatus == status
    requires loosePriority == All || loosePriority == priority
    requires looseCategory == All || looseCategory == category
    ensures IsSubsequence(
              FilterComplaints(complaints, status, priority, category),
              FilterComplaints(complaints, looseStatus, loosePriority, looseCategory))
    ensures |FilterComplaints(complaints, status, priority, category)|
         <= |FilterComplaints(complaints, looseStatus, loosePriority, looseCategory)|
  {
    FilterMonotone(complaints, KeepRow(status, priority, category),
                   KeepRow(looseStatus, loosePriority, looseCategory));
  }

  /** "Showing N complaints": never more than the table holds, and the whole table
      exactly when every row matches. */
  function ShownCount(complaints: seq<AdminComplaint>, status: string, priority: string, category: string)
    : (n: nat)
    ensures n <= |complaints|
    ensures n == |complaints| <==> forall c :: c in complaints ==> Matches(c, status, priority, category)
  {
    FilterFullIff(complaints, KeepRow(status, priority, category));
    |FilterComplaints(complaints, status, priority, category)|
  }

  // The categories the sample table uses.
  const RoadsCategory: string := "Roads & Infrastructure"
  const WasteCategory: string := "Waste Management"
  const WaterCategory: string := "Water & Sanitation"

  /** The sample table of the dashboard, one row per function so that proofs
      about the table see each row's filtered fields and not its text. */
  function SampleComplaints(): seq<AdminComplaint>
  {
    [StreetLightRow(), GarbageRow(), PotholeRow(), PipelineRow(), SignalRow()]
  }

  function StreetLightRow(): (c: AdminComplaint)
    ensures c.category == RoadsCategory && c.status == InProgress && c.priority == Medium
  {
    AdminComplaint("CMP123456", "Broken Street Light on Main Avenue", RoadsCategory,
      "Main Avenue & 5th Street", InProgress, Medium, "2025-05-15T10:30:00Z", "2025-05-17T14:20:00Z",
      "Department of Public Works", "John Doe", "john.doe@example.com")
  }

  function GarbageRow(): (c: AdminComplaint)
    ensures c.category == WasteCategory && c.status == Pending && c.priority == High
  {
    AdminComplaint("CMP789012", "Excessive Garbage Accumulation", WasteCategory,
      "Eastern Suburb, Residential Zone B", Pending, High, "2025-05-19T15:20:00Z", "2025-05-19T15:20:00Z",
      "Waste Management Department", "Alice Smith", "alice.smith@example.com")
  }

  function PotholeRow(): (c: AdminComplaint)
    ensures c.category == RoadsCategory && c.status == Received && c.priority == High
  {
    AdminComplaint("CMP345678", "Pothole Damage on Highway 42", RoadsCategory,
      "Highway 42, Mile Marker 23", Received, High, "2025-05-18T09:15:00Z", "2025-05-18T11:30:00Z",
      "Department of Transportation", "Robert Johnson", "robert.j@example.com")
  }

  function PipelineRow(): (c: AdminComplaint)
    ensures c.category == WaterCategory && c.status == Pending && c.priority == Critical
  {
    AdminComplaint("CMP567890", "Water Leakage from Main Pipeline", WaterCategory,
      "West District, Block D", Pending, Critical, "2025-05-20T08:10:00Z", "2025-05-20T08:10:00Z",
      "Water Authority", "Maria Garcia", "maria.g@example.com")
  }

  function SignalRow(): (c: AdminComplaint)
    ensures c.category == RoadsCategory && c.status == InProgress && c.priority == High
  {
    AdminComplaint("CMP234567", "Non-functioning Traffic Signal", RoadsCategory,
      "Junction of Park Road and Lake Avenue", InProgress, High, "2025-05-16T13:45:00Z", "2025-05-17T10:20:00Z",
      "Traffic Management Authority", "David Wilson", "david.wilson@example.com")
  }

  /** On the sample table, high-priority road complaints are the pothole and the
      traffic signal, in table order. */
  lemma SampleHighPriorityRoads()
    ensures var s := SampleComplaints();
            FilterComplaints(s, All, "high", RoadsCategory) == [s[2], s[4]]
  {
    var s := SampleComplaints();
    var keep := KeepRow(All, "high", RoadsCategory);
    RowsAgainstHighRoads();
    KeepThirdAndFifth(StreetLightRow(), GarbageRow(), PotholeRow(), PipelineRow(), SignalRow(), keep);
  }

  /** Which sample rows the high-priority road filter keeps. */
  lemma RowsAgainstHighRoads()
    ensures var keep := KeepRow(All, "high", RoadsCategory);
            && !keep(StreetLightRow()) && !keep(GarbageRow()) && keep(PotholeRow())
            && !keep(PipelineRow()) && keep(SignalRow())
  {
  }

  /** Filtering five rows of which only the third and fifth pass. */
  lemma KeepThirdAndFifth<T(!new)>(c0: T, c1: T, c2: T, c3: T, c4: T, keep: T -> bool)
    requires !keep(c0) && !keep(c1) && keep(c2) && !keep(c3) && keep(c4)
    ensures Filter([c0, c1, c2, c3, c4], keep) == [c2, c4]
  {
    assert Filter([c4], keep) == [c4];
    assert Filter([c3, c4], keep) == [c4];
    assert Filter([c2, c3, c4], keep) == [c2, c4];
    assert Filter([c1, c2, c3, c4], keep) == [c2, c4];
  }
}
