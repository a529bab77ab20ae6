/** The three complaint records the tracking page searches, with their update
    histories. */
module TrackRecords {
  import opened Wrappers
  import opened Registry
  import opened TrackPage

  // The record ids.
  const StreetLightId: string := "CMP123456"
  const WaterSupplyId: string := "CMP654321"
  const GarbageId: string := "CMP789012"

  // The longer texts of the three records.
  const StreetLightDescription: string := "The street light at the corner of Main Avenue and 5th Street has been broken for over a week, creating a safety hazard for pedestrians at night."
  const StreetLightReceivedNote: string := "Complaint received by Department of Public Works"
  const StreetLightScheduledNote: string := "Maintenance team scheduled for inspection on May 22"
  const WaterSupplyTitle: string := "Water Supply Interruption in Central District"
  const WaterSupplyDescription: string := "Our neighborhood has been experiencing frequent water supply interruptions over the past three days. The water is completely shut off for 4-5 hours each day without prior notice."
  const WaterSupplyDispatchedNote: string := "Technicians dispatched to investigate the issue"
  const WaterSupplyDiagnosisNote: string := "Issue identified as a damaged water main. Repairs are underway and expected to be completed within 24 hours."
  const WaterSupplyResolvedNote: string := "Repairs have been completed and water supply has been fully restored. Thank you for your patience."
  const GarbageDescription: string := "Garbage has not been collected for over two weeks in our area, leading to unhygienic conditions and foul odor."

  /** The records in page order; each history opens with a "submitted" entry. */
  function MockComplaints(): seq<TrackedComplaint>
  {
    [MockStreetLight(), MockWaterSupply(), MockGarbage()]
  }

  function MockStreetLight(): (c: TrackedComplaint)
    ensures c.id == StreetLightId
  {
    TrackedComplaint(
        StreetLightId, "Broken Street Light on Main Avenue", "Roads & Infrastructure",
        StreetLightDescription,
        "Main Avenue & 5th Street", InProgress, "2025-05-15T10:30:00Z", "2025-05-17T14:20:00Z",
        "Department of Public Works",
        [Attachment("broken_light.jpg", "image/jpeg", "1.2 MB")],
        [ StatusUpdate(1, "2025-05-15T10:30:00Z", "submitted", "Complaint submitted successfully", None),
          StatusUpdate(2, "2025-05-16T09:15:00Z", "received", StreetLightReceivedNote, None),
          StatusUpdate(3, "2025-05-17T14:20:00Z", "in_progress", StreetLightScheduledNote,
            Some("John Smith, Public Works Coordinator")) ])
  }

  function MockWaterSupply(): (c: TrackedComplaint)
    ensures c.id == WaterSupplyId
  {
    TrackedComplaint(
        WaterSupplyId, WaterSupplyTitle, "Water & Sanitation",
        WaterSupplyDescription,
        "Central District, Blocks A-C", Resolved, "2025-05-10T08:45:00Z", "2025-05-14T16:30:00Z",
        "Water Authority",
        [],
        [ StatusUpdate(1, "2025-05-10T08:45:00Z", "submitted", "Complaint submitted successfully", None),
          StatusUpdate(2, "2025-05-10T11:20:00Z", "received", "Complaint received by Water Authority", None),
          StatusUpdate(3, "2025-05-11T09:30:00Z", "in_progress", WaterSupplyDispatchedNote,
            Some("Water Authority Support Team")),
          StatusUpdate(4, "2025-05-13T14:15:00Z", "in_progress",
            WaterSupplyDiagnosisNote,
            Some("Engineering Team, Water Authority")),
          StatusUpdate(5, "2025-05-14T16:30:00Z", "resolved",
            WaterSupplyResolvedNote,
            Some("Sarah Johnson, Water Authority Manager")) ])
  }

  function MockGarbage(): (c: TrackedComplaint)
    ensures c.id == GarbageId
  {
    TrackedComplaint(
        GarbageId, "Excessive Garbage Accumulation", "Waste Management",
        GarbageDescription,
        "Eastern Suburb, Residential Zone B", Pending, "2025-05-19T15:20:00Z", "2025-05-19T15:20:00Z",
        "Waste Management Department",
        [ Attachment("garbage_pile.jpg", "image/jpeg", "2.4 MB"),
          Attachment("location_map.pdf", "application/pdf", "0.8 MB") ],
        [ StatusUpdate(1, "2025-05-19T15:20:00Z", "submitted", "Complaint submitted successfully", None) ])
  }

  /** The three ids differ in their first or second digit. */
  lemma IdsDiffer()
    ensures StreetLightId != WaterSupplyId && StreetLightId != GarbageId && WaterSupplyId != GarbageId
  {
    assert StreetLightId[3] != WaterSupplyId[3] && StreetLightId[3] != GarbageId[3] && WaterSupplyId[4] != GarbageId[4];
  }

  /** The hard-coded ids are distinct, as the page's state requires. */
  lemma MockIdsDistinct()
    ensures DistinctIds(MockComplaints())
  {
    IdsDiffer();
    var a, b, c := MockStreetLight(), MockWaterSupply(), MockGarbage();
    assert MockComplaints() == [a, b, c];
  }
}
