/** The complaint-tracking page: look a complaint up by its id, remember the
    recently tracked complaints, and draw each entry of a complaint's update
    history with a status marker. The simulated one-second delay is not modelled:
    a search is one atomic step. */
module TrackPage {
  import opened Wrappers
  import opened Registry

  datatype Attachment = Attachment(name: string, mimeType: string, size: string)

  /** One entry of a complaint's history. Its status is a plain string because the
      history holds `"submitted"`, which is not a `StatusKey`. */
  datatype StatusUpdate = StatusUpdate(
    id: int,
    date: string,
    status: string,
    message: string,
    author: Option<string>)

  datatype TrackedComplaint = TrackedComplaint(
    id: string,
    title: string,
    category: string,
    description: string,
    location: string,
    status: StatusKey,
    createdAt: string,
    updatedAt: string,
    agency: string,
    attachments: seq<Attachment>,
    updates: seq<StatusUpdate>)

  // ---------------------------------------------------------------------------
  // Lookup by id

  /** The lookup of `searchComplaint`: the first record whose id
      equals `id` exactly (case and spacing included), or `None` when no record has
      that id. */
  function FindById(records: seq<TrackedComplaint>, id: string): (r: Option<TrackedComplaint>)
    ensures r.Some? ==> exists i :: 0 <= i < |records| && records[i] == r.value
                                    && r.value.id == id
                                    && forall j :: 0 <= j < i ==> records[j].id != id
    ensures r.None? <==> forall c :: c in records ==> c.id != id
  {
    if records == [] then None
    else if records[0].id == id then Some(records[0])
    else
      var r := FindById(records[1..], id);
      assert r.Some? ==> exists i :: 0 <= i < |records| && records[i] == r.value
                                    && r.value.id == id
                                    && forall j :: 0 <= j < i ==> records[j].id != id by {
        if r.Some? {
          var i :| 0 <= i < |records[1..]| && records[1..][i] == r.value
                   && forall j :: 0 <= j < i ==> records[1..][j].id != id;
          assert records[i + 1] == r.value;
          forall j | 0 <= j < i + 1 ensures records[j].id != id {
            if j > 0 { assert records[j] == records[1..][j - 1]; }
          }
        }
      }
      assert records == [records[0]] + records[1..];
      r
  }

  /** Pairwise-distinct ids. */
  ghost predicate DistinctIds(s: seq<TrackedComplaint>)
  {
    forall i, j :: 0 <= i < j < |s| ==> s[i].id != s[j].id
  }

  /** When ids are distinct, looking up the id of any record finds that record. */
  lemma {:induction false} FindOwnId(records: seq<TrackedComplaint>, c: TrackedComplaint)
    requires DistinctIds(records) && c in records
    ensures FindById(records, c.id) == Some(c)
  {
    var r := FindById(records, c.id);
    var k :| 0 <= k < |records| && records[k] == c;
    if r.Some? {
      var i :| 0 <= i < |records| && records[i] == r.value && r.value.id == c.id
               && forall j :: 0 <= j < i ==> records[j].id != c.id;
      assert i == k;
    }
  }

  // ---------------------------------------------------------------------------
  // The search guard: an id that trims to nothing is not searched

  /** The characters `String.prototype.trim` removes: ECMAScript white space and
      line terminators. */
  predicate IsJsWhitespace(c: char)
  {
    || c == '\t' || c == '\n' || c == '\U{000B}' || c == '\U{000C}' || c == '\r' || c == ' '
    || c == '\U{00A0}' || c == '\U{1680}' || ('\U{2000}' <= c <= '\U{200A}')
    || c == '\U{2028}' || c == '\U{2029}' || c == '\U{202F}' || c == '\U{205F}'
    || c == '\U{3000}' || c == '\U{FEFF}'
  }

  function TrimStart(s: string): (r: string)
    ensures |r| <= |s| && r == s[|s| - |r|..]
    ensures r == [] || !IsJsWhitespace(r[0])
    ensures forall i :: 0 <= i < |s| - |r| ==> IsJsWhitespace(s[i])
  {
    if s != [] && IsJsWhitespace(s[0]) then TrimStart(s[1..]) else s
  }

  function TrimEnd(s: string): (r: string)
    ensures |r| <= |s| && r == s[..|r|]
    ensures r == [] || !IsJsWhitespace(r[|r| - 1])
    ensures forall i :: |r| <= i < |s| ==> IsJsWhitespace(s[i])
  {
    if s != [] && IsJsWhitespace(s[|s| - 1]) then TrimEnd(s[..|s| - 1]) else s
  }

  /** `r` sits in `s` at offset `k`, and everything of `s` around it is white
      space. */
  ghost predicate CutFrom(s: string, r: string, k: int)
  {
    && 0 <= k <= |s| - |r| && r == s[k..k + |r|]
    && (forall i :: 0 <= i < k ==> IsJsWhitespace(s[i]))
    && (forall i :: k + |r| <= i < |s| ==> IsJsWhitespace(s[i]))
  }

  /** JavaScript's `trim`: the part of `s` left once the white space at both
      ends is removed. It is a contiguous piece of `s`, everything cut off is
      white space, and what is left neither starts nor ends with white space. */
  function Trim(s: string): (r: string)
    ensures exists k :: CutFrom(s, r, k)
    ensures r == [] || (!IsJsWhitespace(r[0]) && !IsJsWhitespace(r[|r| - 1]))
  {
    TrimIsCut(s);
    TrimEnd(TrimStart(s))
  }

  /** Trimming the start and then the end cuts `s` at the offset where the
      start trim stopped. */
  lemma TrimIsCut(s: string)
    ensures CutFrom(s, TrimEnd(TrimStart(s)), |s| - |TrimStart(s)|)
  {
    TrimIsSlice(s);
    TrimDropsWhitespaceTail(s);
  }

  lemma TrimIsSlice(s: string)
    ensures var k := |s| - |TrimStart(s)|;
            TrimEnd(TrimStart(s)) == s[k..k + |TrimEnd(TrimStart(s))|]
  {
    var t := TrimStart(s);
    PrefixOfSuffix(s, |s| - |t|, TrimEnd(t));
  }

  lemma PrefixOfSuffix<T>(s: seq<T>, k: nat, r: seq<T>)
    requires k <= |s| && |r| <= |s| - k && r == s[k..][..|r|]
    ensures r == s[k..k + |r|]
  {
    assert forall i :: 0 <= i < |r| ==> r[i] == s[k + i];
  }

  lemma TrimDropsWhitespaceTail(s: string)
    ensures var k := |s| - |TrimStart(s)|;
            forall i :: k + |TrimEnd(TrimStart(s))| <= i < |s| ==> IsJsWhitespace(s[i])
  {
    var t := TrimStart(s);
    var k := |s| - |t|;
    forall i | k + |TrimEnd(t)| <= i < |s|
      ensures IsJsWhitespace(s[i])
    {
      assert s[i] == t[i - k];
    }
  }

  /** The trimmed id is empty exactly when the id is empty or all white space. */
  lemma {:induction false} TrimEmptyIff(s: string)
    ensures Trim(s) == "" <==> forall i :: 0 <= i < |s| ==> IsJsWhitespace(s[i])
  {
    var t := TrimStart(s);
    if forall i :: 0 <= i < |s| ==> IsJsWhitespace(s[i]) {
      AllWhitespaceTrimsAway(s);
      assert t == [];
    } else {
      var i :| 0 <= i < |s| && !IsJsWhitespace(s[i]);
      StartKeepsNonWhitespace(s, i);
      assert t != [] && !IsJsWhitespace(t[0]);
      assert TrimEnd(t) != [] by {
        if TrimEnd(t) == [] { EndTrimsOnlyWhitespace(t); }
      }
    }
  }

  lemma {:induction false} AllWhitespaceTrimsAway(s: string)
    requires forall i :: 0 <= i < |s| ==> IsJsWhitespace(s[i])
    ensures TrimStart(s) == []
    decreases |s|
  {
    if s != [] {
      AllWhitespaceTrimsAway(s[1..]);
    }
  }

  lemma {:induction false} StartKeepsNonWhitespace(s: string, i: nat)
    requires i < |s| && !IsJsWhitespace(s[i])
    ensures TrimStart(s) != []
    decreases |s|
  {
    if IsJsWhitespace(s[0]) {
      StartKeepsNonWhitespace(s[1..], i - 1);
    }
  }

  lemma {:induction false} EndTrimsOnlyWhitespace(s: string)
    requires s != [] && !IsJsWhitespace(s[0])
    ensures TrimEnd(s) != []
    decreases |s|
  {
    if IsJsWhitespace(s[|s| - 1]) {
      EndTrimsOnlyWhitespace(s[..|s| - 1]);
    }
  }

  // ---------------------------------------------------------------------------
  // The recently tracked complaints

  /** Some entry of `list` has the id `id`. */
  predicate HasId(list: seq<TrackedComplaint>, id: string)
  {
    exists c :: c in list && c.id == id
  }

  /** The first `n` entries of `list`, or all of them when it is shorter. */
  function Take(list: seq<TrackedComplaint>, n: nat): (r: seq<TrackedComplaint>)
    ensures |r| <= n && |r| <= |list| && r == list[..|r|]
    ensures |list| <= n ==> r == list
  {
    if |list| <= n then list else list[..n]
  }

  /** The recent list after a successful lookup of `found`: prepended and cut to 5
      entries when its id is not yet listed, left exactly as it was (not moved to
      the front) when it is. Either way the found id is listed afterwards. */
  function RecentAfterHit(recent: seq<TrackedComplaint>, found: TrackedComplaint): (r: seq<TrackedComplaint>)
    ensures HasId(r, found.id)
    ensures HasId(recent, found.id) ==> r == recent
    ensures !HasId(recent, found.id) ==>
              && |r| == (if |recent| < 5 then |recent| + 1 else 5)
              && r[0] == found && r[1..] == recent[..|r| - 1]
  {
    if HasId(recent, found.id) then recent
    else
      var r := Take([found] + recent, 5);
      assert r[0] == found;
      r
  }

  /** The recent list never grows past 5 entries and never lists an id twice. */
  ghost predicate RecentInvariant(recent: seq<TrackedComplaint>)
  {
    |recent| <= 5 && DistinctIds(recent)
  }

  lemma RecentAfterHitKeepsInvariant(recent: seq<TrackedComplaint>, found: TrackedComplaint)
    requires RecentInvariant(recent)
    ensures RecentInvariant(RecentAfterHit(recent, found))
  {
    var r := RecentAfterHit(recent, found);
    if !HasId(recent, found.id) {
      forall i, j | 0 <= i < j < |r| ensures r[i].id != r[j].id {
        assert r[j] == recent[j - 1];
        if i == 0 {
          assert recent[j - 1] in recent;
        } else {
          assert r[i] == recent[i - 1];
        }
      }
    }
  }

  /** Looking the same complaint up twice leaves the list as looking it up once. */
  lemma RecentAfterHitIdempotent(recent: seq<TrackedComplaint>, found: TrackedComplaint)
    ensures RecentAfterHit(RecentAfterHit(recent, found), found) == RecentAfterHit(recent, found)
  {
  }

  // ---------------------------------------------------------------------------
  // The page state

  /** The page's `useState` values, as one value. */
  datatype TrackState = TrackState(
    searchId: string,
    complaint: Option<TrackedComplaint>,
    isSearching: bool,
    notFound: bool,
    recent: seq<TrackedComplaint>)

  /** The state after `searchComplaint` has run to completion. The box keeps
      its id. A search that changes anything ends with `isSearching` false and
      `notFound` set exactly when nothing is shown, and what it shows is a record
      with that id. The recent list is either kept or gains that record in
      front, when its id was not listed, followed by the old list cut to fit. */
  function Search(st: TrackState, records: seq<TrackedComplaint>): (r: TrackState)
    ensures r.searchId == st.searchId
    ensures r != st ==> && !r.isSearching && (r.notFound <==> r.complaint.None?)
                        && (r.complaint.Some? ==> r.complaint.value in records
                                                  && r.complaint.value.id == st.searchId)
    ensures || r.recent == st.recent
            || (&& |r.recent| >= 1 && r.recent[0] in records && r.recent[0].id == st.searchId
                && !HasId(st.recent, st.searchId) && |r.recent| <= |st.recent| + 1
                && r.recent[1..] == st.recent[..|r.recent| - 1])
  {
    if Trim(st.searchId) == "" then st
    else
      match FindById(records, st.searchId)
      case Some(found) =>
        st.(complaint := Some(found), isSearching := false, notFound := false,
            recent := RecentAfterHit(st.recent, found))
      case None =>
        st.(complaint := None, isSearching := false, notFound := true)
  }

  /** A blank or white-space-only id changes nothing. */
  lemma SearchBlankIsNoOp(st: TrackState, records: seq<TrackedComplaint>)
    requires forall i :: 0 <= i < |st.searchId| ==> IsJsWhitespace(st.searchId[i])
    ensures Search(st, records) == st
  {
    TrimEmptyIff(st.searchId);
  }

  /** A non-blank search always ends with `isSearching` false and the same id in
      the box; on a hit the complaint shown is the first record with exactly that
      id, `notFound` is false and the id is listed among the recent complaints; on
      a miss nothing is shown, `notFound` is true and the recent list is kept. */
  lemma SearchOutcome(st: TrackState, records: seq<TrackedComplaint>)
    requires exists i :: 0 <= i < |st.searchId| && !IsJsWhitespace(st.searchId[i])
    ensures var r := Search(st, records);
            && !r.isSearching && r.searchId == st.searchId
            && (r.complaint.Some? <==> exists c :: c in records && c.id == st.searchId)
            && (r.complaint.Some? ==>
                  && r.complaint.value.id == st.searchId
                  && (exists i :: 0 <= i < |records| && records[i] == r.complaint.value
                                  && forall j :: 0 <= j < i ==> records[j].id != st.searchId)
                  && !r.notFound && HasId(r.recent, st.searchId))
            && (r.complaint.None? ==> r.notFound && r.recent == st.recent)
  {
    TrimEmptyIff(st.searchId);
  }

  /** Searching twice in a row for the same id gives the state of searching once. */
  lemma SearchIdempotent(st: TrackState, records: seq<TrackedComplaint>)
    ensures Search(Search(st, records), records) == Search(st, records)
  {
    var once := Search(st, records);
    assert once.searchId == st.searchId;
    if Trim(st.searchId) != "" {
      var f := FindById(records, st.searchId);
      if f.Some? {
        RecentAfterHitIdempotent(st.recent, f.value);
        assert once.recent == RecentAfterHit(st.recent, f.value);
      }
    }
  }

  /** The state after the page mounts: the recent list is loaded with the first
      three records, and a search runs when the URL carried a non-empty id. The
      list ends as the loaded one, or as the loaded one behind a record whose id
      it did not hold. */
  function Mounted(st: TrackState, records: seq<TrackedComplaint>, urlId: string): (r: TrackState)
    ensures urlId == "" ==> r.complaint == st.complaint
    ensures || r.recent == Take(records, 3)
            || (&& |r.recent| >= 1 && r.recent[0] in records
                && !HasId(Take(records, 3), r.recent[0].id) && r.recent[1..] == Take(records, 3))
  {
    var loaded := st.(recent := Take(records, 3));
    if urlId != "" then Search(loaded, records) else loaded
  }

  /** What the page's state may hold: a bounded, duplicate-free recent list drawn
      from the records, and a shown complaint that is one of the records. */
  ghost predicate StateInvariant(st: TrackState, records: seq<TrackedComplaint>)
  {
    && RecentInvariant(st.recent)
    && (forall c :: c in st.recent ==> c in records)
    && (st.complaint.Some? ==> st.complaint.value in records)
  }

  lemma SearchKeepsInvariant(st: TrackState, records: seq<TrackedComplaint>)
    requires StateInvariant(st, records)
    ensures StateInvariant(Search(st, records), records)
  {
    var f := FindById(records, st.searchId);
    var r := Search(st, records);
    if Trim(st.searchId) != "" && f.Some? {
      RecentAfterHitKeepsInvariant(st.recent, f.value);
      assert f.value in records;
      assert r.recent == RecentAfterHit(st.recent, f.value);
      assert forall c :: c in r.recent ==> c == f.value || c in st.recent;
    }
  }

  lemma MountedKeepsInvariant(st: TrackState, records: seq<TrackedComplaint>, urlId: string)
    requires DistinctIds(records)
    requires st.complaint.Some? ==> st.complaint.value in records
    ensures StateInvariant(Mounted(st, records, urlId), records)
  {
    var loaded := st.(recent := Take(records, 3));
    LoadKeepsInvariant(st, records);
    if urlId != "" {
      SearchKeepsInvariant(loaded, records);
    }
  }

  /** Loading the first three records as the recent list keeps the invariant. */
  lemma LoadKeepsInvariant(st: TrackState, records: seq<TrackedComplaint>)
    requires DistinctIds(records)
    requires st.complaint.Some? ==> st.complaint.value in records
    ensures StateInvariant(st.(recent := Take(records, 3)), records)
  {
    var loaded := Take(records, 3);
    assert forall c :: c in loaded ==> c in records;
  }

  /** The mount effect as the code runs it: `searchComplaint` is called from the
      first render, so its delayed callback tests the recent list of that render
      (`st.recent`), while the prepend it schedules acts on the list loaded in
      the meantime. The list ends as the loaded one, or as the loaded one behind
      a record whose id may already be listed in it. */
  function MountedAsWritten(st: TrackState, records: seq<TrackedComplaint>, urlId: string): (r: TrackState)
    ensures urlId == "" ==> r.complaint == st.complaint
    ensures || r.recent == Take(records, 3)
            || (|r.recent| >= 1 && r.recent[0] in records && r.recent[1..] == Take(records, 3))
  {
    var loaded := st.(recent := Take(records, 3));
    if urlId == "" || Trim(st.searchId) == "" then loaded
    else
      match FindById(records, st.searchId)
      case Some(found) =>
        loaded.(complaint := Some(found), isSearching := false, notFound := false,
                recent := if HasId(st.recent, found.id) then loaded.recent
                          else Take([found] + loaded.recent, 5))
      case None =>
        loaded.(complaint := None, isSearching := false, notFound := true)
  }

  /** A URL id that is the first record's id and not blank finds that record. */
  lemma UrlIdFindsFirstRecord(st: TrackState, records: seq<TrackedComplaint>)
    requires DistinctIds(records) && |records| >= 1 && st.searchId == records[0].id
    requires exists i :: 0 <= i < |st.searchId| && !IsJsWhitespace(st.searchId[i])
    ensures Trim(st.searchId) != "" && FindById(records, st.searchId) == Some(records[0])
  {
    TrimEmptyIff(st.searchId);
    FindOwnId(records, records[0]);
  }

  /** Opening the page with the id of one of the first three records in the URL
      lists that record twice among the recent complaints as written; the
      sequential mount keeps the list duplicate-free. */
  lemma StaleMountDuplicatesRecent(st: TrackState, records: seq<TrackedComplaint>)
    requires DistinctIds(records) && |records| >= 1
    requires st.recent == [] && st.complaint.None? && st.searchId == records[0].id
    requires exists i :: 0 <= i < |st.searchId| && !IsJsWhitespace(st.searchId[i])
    ensures var r := MountedAsWritten(st, records, st.searchId);
            |r.recent| >= 2 && r.recent[0] == r.recent[1] == records[0]
    ensures RecentInvariant(Mounted(st, records, st.searchId).recent)
  {
    UrlIdFindsFirstRecord(st, records);
    assert !HasId(st.recent, records[0].id);
    var loaded := Take(records, 3);
    assert loaded[0] == records[0];
    var longer := [records[0]] + loaded;
    assert longer[0] == longer[1] == records[0];
    var r := MountedAsWritten(st, records, st.searchId);
    assert r.recent == Take(longer, 5);
    MountedKeepsInvariant(st, records, st.searchId);
  }

  /** Clicking a recent complaint shows the same complaint a search for its id
      would show. */
  lemma SelectRecentAgreesWithSearch(st: TrackState, records: seq<TrackedComplaint>, i: nat)
    requires StateInvariant(st, records) && DistinctIds(records) && i < |st.recent|
    ensures var item := st.recent[i];
            var selected := st.(searchId := item.id, complaint := Some(item));
            Search(selected, records).complaint == selected.complaint
  {
    var item := st.recent[i];
    FindOwnId(records, item);
    if Trim(item.id) == "" {
      // An id that trims to nothing is never searched: the shown complaint stays.
    }
  }

  /** The tracking page's state. */
  class TrackPageState {
    const records: seq<TrackedComplaint>
    /** The URL's `id` parameter, or the empty string when it is absent, as read
        when the page is created. */
    const urlId: string
    var searchId: string
    var complaint: Option<TrackedComplaint>
    var isSearching: bool
    var notFound: bool
    var recent: seq<TrackedComplaint>

    function State(): TrackState
      reads this
    {
      TrackState(searchId, complaint, isSearching, notFound, recent)
    }

    ghost predicate Valid()
      reads this
    {
      DistinctIds(records) && StateInvariant(State(), records)
    }

    /** The first render: the box holds the URL's id, nothing is shown yet. The
        page's records are its hard-coded list, whose ids are distinct
        (`TrackRecords.MockIdsDistinct`). */
    constructor (mockRecords: seq<TrackedComplaint>, urlParam: Option<string>)
      requires DistinctIds(mockRecords)
      ensures Valid()
      ensures records == mockRecords && urlId == urlParam.GetOr("")
      ensures State() == TrackState(urlId, None, false, false, [])
    {
      records := mockRecords;
      urlId := urlParam.GetOr("");
      searchId := urlParam.GetOr("");
      complaint := None;
      isSearching := false;
      notFound := false;
      recent := [];
    }

    /** `setSearchId`: typing in the box. */
    method SetSearchId(id: string)
      requires Valid()
      modifies this
      ensures Valid()
      ensures State() == old(State()).(searchId := id)
    {
      searchId := id;
    }

    /** `searchComplaint`. */
    method SearchComplaint()
      requires Valid()
      modifies this
      ensures Valid()
      ensures State() == Search(old(State()), records)
    {
      ghost var before := State();
      SearchKeepsInvariant(before, records);
      if Trim(searchId) == "" {
        return;
      }
      isSearching := true;
      notFound := false;
      var found := FindById(records, searchId);
      ghost var after := Search(before, records);
      assert after.searchId == searchId && after.complaint == found && !after.isSearching
             && after.notFound == found.None?
             && after.recent == if found.Some? then RecentAfterHit(before.recent, found.value) else before.recent;
      if found.Some? {
        complaint := found;
        RememberRecent(found.value);
      } else {
        complaint := None;
        notFound := true;
      }
      isSearching := false;
      assert State() == after;
    }

    /** The recent-list update of a successful search: prepend and cut to five
        entries unless the id is already listed. */
    method RememberRecent(found: TrackedComplaint)
      modifies this
      ensures State() == old(State()).(recent := RecentAfterHit(old(recent), found))
    {
      if !HasId(recent, found.id) {
        recent := Take([found] + recent, 5);
      }
    }

    /** The mount effect. */
    method Mount()
      requires Valid()
      modifies this
      ensures Valid()
      ensures State() == Mounted(old(State()), records, urlId)
    {
      ghost var before := State();
      LoadKeepsInvariant(before, records);
      recent := Take(records, 3);
      ghost var loaded := State();
      assert loaded == before.(recent := Take(records, 3));
      if urlId != "" {
        SearchComplaint();
        assert State() == Search(loaded, records);
      }
    }

    /** Clicking the `i`-th recently tracked complaint. `notFound` is left as it was. */
    method SelectRecent(i: nat)
      requires Valid() && i < |recent|
      modifies this
      ensures Valid()
      ensures State() == old(State()).(searchId := old(recent[i]).id, complaint := Some(old(recent[i])))
    {
      searchId := recent[i].id;
      complaint := Some(recent[i]);
    }
  }

  // ---------------------------------------------------------------------------
  // Timeline markers

  /** Icon and colour of one history entry. */
  datatype Marker = Marker(icon: Icon, color: string)

  const FallbackColor: string := "bg-gray-100 text-gray-800"

  /** The marker of a history entry: the registry's icon and colour when the
      status is one of the five keys, otherwise the clock icon in grey. */
  function TimelineMarker(status: string): (m: Marker)
    ensures forall k :: status == StatusName(k) ==> m == Marker(StatusBadge(k).icon, StatusBadge(k).color)
    ensures (forall k :: status != StatusName(k)) ==> m == Marker(ClockIcon, FallbackColor)
  {
    match ParseStatus(status)
    case Some(k) => Marker(StatusBadge(k).icon, StatusBadge(k).color)
    case None => Marker(ClockIcon, FallbackColor)
  }

  /** The `"submitted"` entries of the histories fall back, and the fallback colour
      is not the colour of any registered status. */
  lemma SubmittedFallsBack(k: StatusKey)
    ensures TimelineMarker("submitted") == Marker(ClockIcon, FallbackColor)
    ensures StatusBadge(k).color != FallbackColor
  {
    assert ParseStatus("submitted") == None;
  }
}
