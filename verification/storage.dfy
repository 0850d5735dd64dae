/**
  The report store: three slots of the browser's key-value store (the report
  list, newest first; the tracking-id counter; one draft), each of which may be
  absent. Every operation reads the slots it needs, computes, and writes back
  whole slots. The clock and the current year are parameters.
 */
module Storage {
  import opened Wrappers
  import opened TrackingIds
  import opened Reports

  const HourMs: nat := 60 * 60 * 1000
  const DayMs: nat := 24 * HourMs

  // What the residents wrote in the sample reports; nothing in the store depends on it.
  const PotholeDetails: Details := Details(
    "brokenRoad", "Large pothole near bus stop",
    "There is a large pothole approximately 2 feet wide near the main bus stop. It poses a danger to two-wheelers and pedestrians.",
    "Thiruvananthapuram", "Near Central Bus Stand, MG Road", "high", [], false, None)
  const StreetlightDetails: Details := Details(
    "streetlight", "Street light not working",
    "The street light outside house no. 45 has not been working for the past week.",
    "Kochi", "45, Temple Road, Fort Kochi", "normal", [], true, None)
  const WaterLeakDetails: Details := Details(
    "waterLeak", "Water pipe burst on main road",
    "Major water pipe burst causing water wastage and road flooding.",
    "Kozhikode", "SM Street, Near Railway Station", "urgent", [], false, Some(Contact(Some("9876543210"))))

  /** The three demonstration reports, in the order they are listed (and saved).
      `ago(ms)` is the ISO-8601 time `ms` milliseconds before now. */
  function SampleReports(ago: nat -> string): (s: seq<Report>)
    ensures |s| == 3 && AllConsistent(s)
  {
    [SamplePothole(ago), SampleStreetlight(ago), SampleWaterLeak(ago)]
  }

  /** sample-1: in progress, assigned to roads, four timeline entries. */
  function SamplePothole(ago: nat -> string): (r: Report)
    ensures TimelineConsistent(r)
  {
    Report(
      "sample-1", "PTH-2025-0001",
      PotholeDetails,
      InProgress, Some("roads"), ago(3 * DayMs), ago(1 * DayMs),
      [ TimelineEntry(Submitted, ago(3 * DayMs), None, None),
        TimelineEntry(Received, ago(5 * DayMs / 2), None, None),
        TimelineEntry(Assigned, ago(2 * DayMs), Some("Assigned to Roads Team"), None),
        TimelineEntry(InProgress, ago(1 * DayMs), Some("Work started"), None) ],
      None)
  }

  /** sample-2: resolved, assigned to electricity, five timeline entries. */
  function SampleStreetlight(ago: nat -> string): (r: Report)
    ensures TimelineConsistent(r)
  {
    Report(
      "sample-2", "PTH-2025-0002",
      StreetlightDetails,
      Resolved, Some("electricity"), ago(7 * DayMs), ago(2 * DayMs),
      [ TimelineEntry(Submitted, ago(7 * DayMs), None, None),
        TimelineEntry(Received, ago(13 * DayMs / 2), None, None),
        TimelineEntry(Assigned, ago(6 * DayMs), None, None),
        TimelineEntry(InProgress, ago(4 * DayMs), None, None),
        TimelineEntry(Resolved, ago(2 * DayMs), Some("Bulb replaced"), None) ],
      None)
  }

  /** sample-3: just submitted, no team, one timeline entry, a contact phone. */
  function SampleWaterLeak(ago: nat -> string): (r: Report)
    ensures TimelineConsistent(r)
  {
    Report(
      "sample-3", "PTH-2025-0003",
      WaterLeakDetails,
      Submitted, None, ago(2 * HourMs), ago(2 * HourMs),
      [ TimelineEntry(Submitted, ago(2 * HourMs), None, None) ],
      None)
  }

  class ReportStore {
    /** The report list slot, most recently saved first. */
    var reportsSlot: Option<seq<Report>>
    /** The tracking-id counter slot. */
    var counterSlot: Option<nat>
    /** The draft slot. */
    var draftSlot: Option<Draft>

    /** A store whose three slots are all absent. */
    constructor ()
      ensures reportsSlot == None && counterSlot == None && draftSlot == None
    {
      reportsSlot, counterSlot, draftSlot := None, None, None;
    }

    /** The reports as read from storage: the empty list when the slot is absent. */
    function AllReports(): seq<Report>
      reads this
    {
      if reportsSlot.Some? then reportsSlot.value else []
    }

    /** The counter as read from storage: 0 when the slot is absent. */
    function StoredCounter(): nat
      reads this
    {
      if counterSlot.Some? then counterSlot.value else 0
    }

    // ------------------------------------------------------------ tracking ids

    /** Bumps the stored counter by one and returns the new value; the first call
        on an empty store returns 1. */
    method GetAndIncrementCounter() returns (c: nat)
      modifies this`counterSlot
      ensures c == old(StoredCounter()) + 1
      ensures counterSlot == Some(c)
    {
      c := StoredCounter() + 1;
      counterSlot := Some(c);
    }

    /** A fresh tracking id for `year`: the counter is bumped exactly once, and
        never reset when the year changes. */
    method GenerateTrackingId(year: nat) returns (id: string)
      modifies this`counterSlot
      ensures counterSlot == Some(old(StoredCounter()) + 1)
      ensures id == FormatTrackingId(year, old(StoredCounter()) + 1)
      ensures ParseTrackingId(id) == Some(TrackingParts(year, StoredCounter()))
    {
      var counter := GetAndIncrementCounter();
      id := FormatTrackingId(year, counter);
      ParseFormat(year, counter);
    }

    // ------------------------------------------------------------ the collection

    /** Puts `report` in front of the stored list. The timeline invariant holds
        afterwards exactly when it held before and holds of `report`. */
    method SaveReport(report: Report)
      modifies this`reportsSlot
      ensures reportsSlot == Some([report] + old(AllReports()))
      ensures AllConsistent(AllReports()) <==> old(AllConsistent(AllReports())) && TimelineConsistent(report)
    {
      var reports := GetAllReports();
      PrependConsistent(report, reports);
      reports := [report] + reports;
      reportsSlot := Some(reports);
    }

    /** The stored list, or the empty list when nothing is stored. */
    method GetAllReports() returns (rs: seq<Report>)
      ensures reportsSlot.None? ==> rs == []
      ensures reportsSlot.Some? ==> rs == reportsSlot.value
    {
      rs := AllReports();
    }

    /** The first stored report with tracking id `trackingId`; `None` exactly
        when there is none. */
    method GetReportByTrackingId(trackingId: string) returns (r: Option<Report>)
      ensures r.None? <==> forall j :: 0 <= j < |AllReports()| ==> AllReports()[j].trackingId != trackingId
      ensures r.Some? ==> exists i: nat :: IsFirstMatch(AllReports(), ByTrackingId, trackingId, i) && r.value == AllReports()[i]
    {
      var reports := GetAllReports();
      assert reports == AllReports();
      var found := FindIndex(reports, ByTrackingId, trackingId);
      if found.Some? {
        r := Some(reports[found.value]);
        assert reports[found.value].trackingId == trackingId;
      } else {
        r := None;
        assert forall j :: 0 <= j < |reports| ==> reports[j].trackingId == KeyOf(reports[j], ByTrackingId);
      }
    }

    /** The first stored report with id `id`; `None` exactly when there is none. */
    method GetReportById(id: string) returns (r: Option<Report>)
      ensures r.None? <==> forall j :: 0 <= j < |AllReports()| ==> AllReports()[j].id != id
      ensures r.Some? ==> exists i: nat :: IsFirstMatch(AllReports(), ById, id, i) && r.value == AllReports()[i]
    {
      var reports := GetAllReports();
      assert reports == AllReports();
      var found := FindIndex(reports, ById, id);
      if found.Some? {
        r := Some(reports[found.value]);
        assert reports[found.value].id == id;
      } else {
        r := None;
        assert forall j :: 0 <= j < |reports| ==> reports[j].id == KeyOf(reports[j], ById);
      }
    }

    // ------------------------------------------------------------ in-place edits

    /** Sets the status of the first report with id `id` and appends the matching
        timeline entry. A missing id gives `None` and writes nothing; otherwise
        only that report changes. */
    method UpdateReportStatus(id: string, newStatus: Status, note: Option<string>, actor: Option<string>, now: string)
      returns (r: Option<Report>)
      modifies this`reportsSlot
      ensures FindIndex(old(AllReports()), ById, id).None? ==> r.None? && reportsSlot == old(reportsSlot)
      ensures FindIndex(old(AllReports()), ById, id).Some? ==>
        var i := FindIndex(old(AllReports()), ById, id).value;
        && r == Some(WithStatus(old(AllReports())[i], newStatus, note, actor, now))
        && reportsSlot == Some(old(AllReports())[i := r.value])
      ensures r.Some? ==> r.value.id == id && r.value.status == newStatus && TimelineConsistent(r.value)
      ensures old(AllConsistent(AllReports())) ==> AllConsistent(AllReports())
    {
      var reports := GetAllReports();
      var index := FindIndex(reports, ById, id);
      if index.None? {
        return None;
      }
      var i := index.value;
      var report := WithStatus(reports[i], newStatus, note, actor, now);
      reports := reports[i := report];
      reportsSlot := Some(reports);
      r := Some(report);
    }

    /** Assigns `team` to the first report with id `id`; if that report was still
        `Submitted` or `Received` it also becomes `Assigned`, with one timeline
        entry. A missing id gives `None` and writes nothing. */
    method AssignTeamToReport(id: string, team: Team, now: string) returns (r: Option<Report>)
      modifies this`reportsSlot
      ensures FindIndex(old(AllReports()), ById, id).None? ==> r.None? && reportsSlot == old(reportsSlot)
      ensures FindIndex(old(AllReports()), ById, id).Some? ==>
        var i := FindIndex(old(AllReports()), ById, id).value;
        && r == Some(WithTeam(old(AllReports())[i], team, now))
        && reportsSlot == Some(old(AllReports())[i := r.value])
      ensures r.Some? ==> r.value.id == id && r.value.assignedTeam == Some(team)
      ensures old(AllConsistent(AllReports())) ==> AllConsistent(AllReports())
    {
      var reports := GetAllReports();
      var index := FindIndex(reports, ById, id);
      if index.None? {
        return None;
      }
      var i := index.value;
      var report := WithTeam(reports[i], team, now);
      reports := reports[i := report];
      reportsSlot := Some(reports);
      r := Some(report);
    }

    /** Appends `[<localTime>] <note>` to the internal notes of the first report
        with id `id`. A missing id gives `None` and writes nothing. */
    method AddInternalNote(id: string, note: string, localTime: string, now: string) returns (r: Option<Report>)
      modifies this`reportsSlot
      ensures FindIndex(old(AllReports()), ById, id).None? ==> r.None? && reportsSlot == old(reportsSlot)
      ensures FindIndex(old(AllReports()), ById, id).Some? ==>
        var i := FindIndex(old(AllReports()), ById, id).value;
        && r == Some(WithNote(old(AllReports())[i], note, localTime, now))
        && reportsSlot == Some(old(AllReports())[i := r.value])
      ensures r.Some? ==> r.value.id == id
      ensures old(AllConsistent(AllReports())) ==> AllConsistent(AllReports())
    {
      var reports := GetAllReports();
      var index := FindIndex(reports, ById, id);
      if index.None? {
        return None;
      }
      var i := index.value;
      var report := WithNote(reports[i], note, localTime, now);
      reports := reports[i := report];
      reportsSlot := Some(reports);
      r := Some(report);
    }

    // ------------------------------------------------------------ the draft slot

    /** Overwrites the draft slot with `draft`. */
    method SaveDraft(draft: Draft)
      modifies this`draftSlot
      ensures draftSlot == Some(draft)
    {
      draftSlot := Some(draft);
    }

    /** The saved draft, or `None` when there is none. */
    method GetDraft() returns (d: Option<Draft>)
      ensures d == draftSlot
    {
      d := draftSlot;
    }

    /** Removes the draft. */
    method ClearDraft()
      modifies this`draftSlot
      ensures draftSlot == None
    {
      draftSlot := None;
    }

    // ------------------------------------------------------------ first run

    /** `xs.forEach(saveReport)`: saves the reports one by one, in order. */
    method SaveEach(xs: seq<Report>)
      modifies this`reportsSlot
      ensures AllReports() == SaveAll(old(AllReports()), xs)
      ensures xs == [] ==> reportsSlot == old(reportsSlot)
    {
      var i := 0;
      while i < |xs|
        invariant 0 <= i <= |xs|
        invariant AllReports() == SaveAll(old(AllReports()), xs[..i])
        invariant i == 0 ==> reportsSlot == old(reportsSlot)
      {
        ghost var before := AllReports();
        SaveReport(xs[i]);
        assert AllReports() == [xs[i]] + before;
        assert xs[..i + 1][..i] == xs[..i] && xs[..i + 1][i] == xs[i];
        i := i + 1;
      }
      assert xs[..i] == xs;
    }

    /** On an empty store, saves the three sample reports one by one (so the list
        reads sample-3, sample-2, sample-1) and sets the counter to 3; on a
        non-empty store, does nothing. Either way the list is non-empty afterwards,
        so a second call changes nothing. */
    method InitializeSampleData(ago: nat -> string)
      modifies this`reportsSlot, this`counterSlot
      ensures old(AllReports()) != [] ==> reportsSlot == old(reportsSlot) && counterSlot == old(counterSlot)
      ensures old(AllReports()) == [] ==> AllReports() == Reverse(SampleReports(ago)) && counterSlot == Some(3)
      ensures AllReports() != []
    {
      var reports := GetAllReports();
      if |reports| > 0 {
        return;
      }
      var samples := SampleReports(ago);
      SaveEach(samples);
      SaveAllReverses([], samples);
      counterSlot := Some(3);
    }
  }

  // ---------------------------------------------------------------- seed lemmas

  /** After seeding, the list holds sample-3, sample-2, sample-1 in that order,
      every one with a consistent timeline. */
  lemma SeededOrder(ago: nat -> string)
    ensures var seeded := Reverse(SampleReports(ago));
      && |seeded| == 3
      && seeded[0].id == "sample-3" && seeded[1].id == "sample-2" && seeded[2].id == "sample-1"
      && AllConsistent(seeded)
  {
    var s := SampleReports(ago);
    assert s == [s[0], s[1], s[2]];
    ReverseSnoc([s[0], s[1]], s[2]);
    ReverseSnoc([s[0]], s[1]);
    assert [s[0], s[1]] == [s[0]] + [s[1]];
    assert [s[0], s[1], s[2]] == [s[0], s[1]] + [s[2]];
  }

  /** The seeded tracking ids are exactly those the formatter gives for the year
      2025 and counters 1, 2, 3, which is why the counter is set to 3. */
  lemma SampleTrackingIds(ago: nat -> string)
    ensures SampleReports(ago)[0].trackingId == FormatTrackingId(2025, 1)
    ensures SampleReports(ago)[1].trackingId == FormatTrackingId(2025, 2)
    ensures SampleReports(ago)[2].trackingId == FormatTrackingId(2025, 3)
  {
    SeedTrackingIdTexts();
  }

  /** The literal tracking ids of the sample reports, as the formatter writes them. */
  lemma SeedTrackingIdTexts()
    ensures FormatTrackingId(2025, 1) == "PTH-2025-0001"
    ensures FormatTrackingId(2025, 2) == "PTH-2025-0002"
    ensures FormatTrackingId(2025, 3) == "PTH-2025-0003"
  {
    SingleDigitTrackingId(1);
    SingleDigitTrackingId(2);
    SingleDigitTrackingId(3);
  }

  /** In 2025, a one-digit counter `k` gives `PTH-2025-000k`. */
  lemma SingleDigitTrackingId(k: nat)
    requires 0 < k < 10
    ensures FormatTrackingId(2025, k) == "PTH-2025-000" + [DigitChar(k)]
  {
    assert NatToString(2025) == "2025" by {
      assert NatToString(2) == "2";
      assert NatToString(20) == "20";
      assert NatToString(202) == "202";
    }
    assert CounterSegment(k) == "000" + [DigitChar(k)] by {
      assert Repeat('0', 3) == "000";
    }
  }

  /** A report list in which every tracking id was formatted from a counter below
      `counter` cannot contain the id formatted from `counter`, for any year. */
  lemma {:induction false} TrackingIdFresh(rs: seq<Report>, years: seq<nat>, counters: seq<nat>, year: nat, counter: nat)
    requires |years| == |rs| && |counters| == |rs|
    requires forall i :: 0 <= i < |rs| ==> rs[i].trackingId == FormatTrackingId(years[i], counters[i]) && counters[i] < counter
    ensures forall i :: 0 <= i < |rs| ==> rs[i].trackingId != FormatTrackingId(year, counter)
  {
    forall i | 0 <= i < |rs|
      ensures rs[i].trackingId != FormatTrackingId(year, counter)
    {
      TrackingIdsDistinct(years[i], counters[i], year, counter);
    }
  }

  /** Right after seeding, the next generated id (counter 4) collides with no
      seeded report, whatever the current year. */
  lemma NextIdAfterSeedIsFresh(ago: nat -> string, year: nat)
    ensures forall i :: 0 <= i < 3 ==> SampleReports(ago)[i].trackingId != FormatTrackingId(year, 3 + 1)
  {
    SampleTrackingIds(ago);
    TrackingIdFresh(SampleReports(ago), [2025, 2025, 2025], [1, 2, 3], year, 4);
  }
}
