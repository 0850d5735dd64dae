# Report store of a civic-issue tracker, in Dafny

Residents of a panchayat file reports about civic issues (a broken road, a dead
street light, a burst pipe). Staff then move each report through a status
lifecycle, assign it to a team and keep internal notes on it. The store that keeps
these reports lives in the browser's key-value storage, in three slots:

- the list of reports, most recently saved first;
- the tracking-id counter;
- one draft of a report not yet submitted.

Each slot may be absent. This project models that store (`src/lib/storage.ts`) as
a Dafny class, `Storage.ReportStore`, with one field per slot (`Option` values;
`None` is an absent slot). Each operation of the store is a method of the class.
It reads the slots it needs and writes whole slots back, just as the source
round-trips through the storage. Each method's frame names the one or two slots
it may write, so its frame alone shows that nothing else changes. The pure parts
are functions that the methods call:

- `TrackingIds` (`tracking_ids.dfy`): decimal rendering, `padStart`, the
  `PTH-<year>-<counter>` formatter, and an inverse parser. The parser is not in
  the source. It is defined here so that "the counter can be read back from the
  id" and "distinct counters give distinct ids" can be stated and proved.
- `Reports` (`reports.dfy`): the report and timeline datatypes, and the timeline
  invariant (the last history entry's status is the report's status). It also
  holds the first-match lookup (`findIndex`/`find`), the three in-place edits as
  functions from the old report to the new one, and the order that repeated saves
  produce.
- `Storage` (`storage.dfy`): the class, the three sample reports used to seed a
  first run, and lemmas about the seeded state.

The clock is a parameter: `now` is an ISO-8601 time and `localTime` is a
locale-formatted time. The year is a parameter as well. A seed timestamp is
`ago(ms)`, the time `ms` milliseconds before now, and each offset is kept exactly
as the source computes it. Each storage slot is a plain Dafny
field; JSON encoding and decoding are abstracted away.

Two behaviours of the code are worth stating outright, and the model follows
them:

- the counter is never reset when the year changes;
- malformed stored JSON is not turned into an empty list: `JSON.parse` is
  unguarded and throws (see "Left out").

Worth noting, and modelled as written: `initializeSampleData` sets the counter to
3 even if it was higher. This happens only when the list is empty. It is the one
operation that can lower the counter; every other operation leaves the counter
alone or adds one to it.

## Model

| member | source | states |
|---|---|---|
| `TrackingIds.NatToString` | src/lib/storage.ts:9 | `counter.toString()` for counters below 10^21: a non-empty run of decimal digits whose first digit is '0' exactly when the number is 0 |
| `TrackingIds.NatToStringValue` | src/lib/storage.ts:9 | reading the rendered digits back gives the number itself |
| `TrackingIds.NatToStringLength` | src/lib/storage.ts:9 | a number needs at most k digits exactly when it is below 10^k |
| `TrackingIds.PadStart` | src/lib/storage.ts:9 | `padStart(4, '0')`: the result has the original string as its suffix, only fill characters before it, and length max(width, original length); it never truncates |
| `TrackingIds.LeadingZerosValue` | src/lib/storage.ts:9 | padding with leading '0's does not change the value of the digits |
| `TrackingIds.CounterSegmentWidth` | src/lib/storage.ts:9 | counters below 10000 give exactly four digits; counters of 10000 or more are written in full with five or more digits, not truncated |
| `TrackingIds.CounterSegmentValue` | src/lib/storage.ts:9 | the padded counter segment is all digits and denotes the counter |
| `TrackingIds.CounterSegment` | src/lib/storage.ts:9 | `counter.toString().padStart(4, '0')`: a run of at least four decimal digits. `CounterSegmentWidth` gives its exact width, and `CounterSegmentValue` shows it denotes the counter |
| `TrackingIds.FormatTrackingId` | src/lib/storage.ts:9-10 | the template `PTH-${year}-${paddedCounter}`: the id starts with `PTH-`, and the year's digits are followed by '-'. `ParseFormat` reads both parts back |
| `TrackingIds.ParseFormat` | src/lib/storage.ts:6-11 | `PTH-<year>-<padded counter>` parses back into exactly that year and that counter |
| `TrackingIds.TrackingIdsDistinct` | src/lib/storage.ts:6-11 | ids formatted from different (year, counter) pairs are different strings |
| `Storage.ReportStore.GetAndIncrementCounter` | src/lib/storage.ts:13-18 | returns the stored counter plus 1 (1 when the slot is absent) and stores that same value; no other slot is written |
| `Storage.ReportStore.GenerateTrackingId` | src/lib/storage.ts:6-11 | bumps the counter exactly once, whatever the year, and returns the formatted id of the new counter, which parses back to (year, new counter) |
| `Storage.TrackingIdFresh` | src/lib/storage.ts:6-18 | a list whose ids were all formatted from counters below c cannot contain the id formatted from c, in any year |
| `Storage.ReportStore.SaveReport` | src/lib/storage.ts:20-24 | the stored list becomes the new report followed by the old list; the timeline invariant holds of the new list exactly when it held before and holds of the new report |
| `Reports.PrependConsistent` | src/lib/storage.ts:20-24 | a list with a report put in front keeps the timeline invariant exactly when the earlier list and the new report both satisfy it |
| `Storage.ReportStore.GetAllReports` | src/lib/storage.ts:26-29 | returns the stored list, or the empty list when the slot is absent |
| `Reports.SaveAllReverses` | src/lib/storage.ts:20-24 | saving reports one after another leaves them in exact reverse order of saving, in front of the earlier list |
| `Reports.ReverseSnoc` | src/lib/storage.ts:22 | prepending the newest report to the reversal of the earlier saves gives the reversal of all the saves |
| `Reports.FindIndex` | src/lib/storage.ts:48 | `findIndex`: the position of the first report whose key matches, or no position exactly when no report matches |
| `Storage.ReportStore.GetReportByTrackingId` | src/lib/storage.ts:31-34 | returns the first report with that tracking id; `None` if and only if no stored report has it |
| `Storage.ReportStore.GetReportById` | src/lib/storage.ts:36-39 | returns the first report with that id; `None` if and only if no stored report has it |
| `Reports.WithStatus` | src/lib/storage.ts:52-62 | the status becomes the new one. The history grows by exactly one entry (new status, time, note, actor) and keeps its earlier entries. The timeline invariant then holds. Only status, `updatedAt` and history differ |
| `Storage.ReportStore.UpdateReportStatus` | src/lib/storage.ts:41-66 | a missing id returns `None` with no write. Otherwise only the first report with that id is replaced, by its `WithStatus` edit, and that report is returned. The timeline invariant of the whole list is preserved |
| `Reports.WithTeam` | src/lib/storage.ts:74-85 | the team is set. From `Submitted` or `Received`, the status becomes `Assigned` and one entry `Assigned`/"Assigned to <team> team" is appended. From any other status, status and history stay as they were. The result is consistent exactly when the old report was consistent or was auto-assigned |
| `Storage.ReportStore.AssignTeamToReport` | src/lib/storage.ts:68-89 | a missing id returns `None` with no write. Otherwise only the first report with that id is replaced, by its `WithTeam` edit. The timeline invariant of the list is preserved |
| `Reports.WithNote` | src/lib/storage.ts:97-102 | the notes list (empty when it was absent) grows by exactly one note, keeps its earlier notes, and the new note ends with the given text. Status, history and team are unchanged |
| `Storage.ReportStore.AddInternalNote` | src/lib/storage.ts:91-106 | a missing id returns `None` with no write. Otherwise only the first report with that id is replaced, by its `WithNote` edit. The timeline invariant of the list is preserved |
| `Storage.ReportStore.SaveDraft` | src/lib/storage.ts:111-113 | the draft slot holds exactly the new draft, fully overwriting the old one; the list and the counter are not written |
| `Storage.ReportStore.GetDraft` | src/lib/storage.ts:115-118 | returns the saved draft, or `None` when there is none |
| `Storage.ReportStore.ClearDraft` | src/lib/storage.ts:120-122 | the draft slot becomes absent; the list and the counter are not written |
| `Storage.SamplePothole` | src/lib/storage.ts:130-153 | sample-1's timeline ends with its status (`inProgress`) |
| `Storage.SampleStreetlight` | src/lib/storage.ts:154-178 | sample-2's timeline ends with its status (`resolved`) |
| `Storage.SampleWaterLeak` | src/lib/storage.ts:179-199 | sample-3's timeline ends with its status (`submitted`) |
| `Storage.SampleReports` | src/lib/storage.ts:129-200 | exactly three sample reports, each with a consistent timeline |
| `Storage.ReportStore.SaveEach` | src/lib/storage.ts:202 | `forEach(saveReport)`: the list becomes the result of saving each report in turn; an empty run writes nothing |
| `Storage.ReportStore.InitializeSampleData` | src/lib/storage.ts:125-204 | on a non-empty list, nothing is written. On an empty list, the samples are saved one by one, the list becomes their reversal and the counter becomes 3. Either way the list is non-empty afterwards, so a second call writes nothing |
| `Storage.SeededOrder` | src/lib/storage.ts:202 | the seeded list is sample-3, sample-2, sample-1, in that order, each with a consistent timeline |
| `Storage.SampleTrackingIds` | src/lib/storage.ts:129-203 | the seeded tracking ids are the formatter's ids for year 2025 and counters 1, 2, 3, which agrees with the counter being set to 3 |
| `Storage.SeedTrackingIdTexts` | src/lib/storage.ts:132 | the literal ids `PTH-2025-0001`..`0003` are what the formatter produces for 2025 and 1..3 |
| `Storage.NextIdAfterSeedIsFresh` | src/lib/storage.ts:203 | right after seeding, the next generated id (counter 4) equals no seeded tracking id, whatever the current year |

## Left out

- Browser storage and JSON: the three slots are typed fields. Serialisation is not
  modelled, and neither are the key names (`panchayat_reports`,
  `panchayat_report_counter`, `panchayat_report_draft`).
- Corrupt storage: the source's `JSON.parse` and `parseInt` (src/lib/storage.ts:15,
  28, 117) are unguarded. A malformed stored value would throw, or give `NaN`.
  The model assumes that every present slot holds a well-formed value. An empty
  stored string counts as absent, as the source's truthiness test treats it.
- Clock, locale and year: `new Date().toISOString()`, `toLocaleString()` and
  `getFullYear()` are parameters. How each operation's clock reads are modelled:
  - `GenerateTrackingId`: the one `getFullYear()` read (src/lib/storage.ts:7) is
    the parameter `year`.
  - `UpdateReportStatus`: two reads, one for the timeline entry and one for
    `updatedAt` (src/lib/storage.ts:55, 61). The model takes both as the same
    instant `now`, so it makes the entry's timestamp equal `updatedAt`, which
    the source does not guarantee.
  - `AssignTeamToReport`: a report that is not auto-assigned gets one read, for
    `updatedAt` (src/lib/storage.ts:76). An auto-assigned report gets a second
    read, for the new timeline entry (src/lib/storage.ts:82). The model takes
    both as the same instant `now`.
  - `AddInternalNote`: two reads, a locale time for the note
    (src/lib/storage.ts:101) and an ISO time for `updatedAt`
    (src/lib/storage.ts:102). They are two independent parameters, `localTime`
    and `now`, and the model relates them in no way.
  - `InitializeSampleData`: sixteen separate `Date.now()` reads
    (src/lib/storage.ts:145-197). The model collapses them into one instant:
    every seed time is `ago(ms)`, for a single function `ago`. Equal offsets
    therefore give equal strings in the model. For example, sample-1's
    `createdAt` equals its first timeline timestamp (src/lib/storage.ts:145,
    148), which the source does not guarantee.
  - Date arithmetic and ISO formatting are not modelled.
- Sample coordinates: the `lat`/`lng` floating-point values of the sample reports
  are not part of the model, and `Details` has no coordinates.
- Type definitions: `src/lib/types.ts` is not part of this model.
  - `Status` has five values: submitted, received, assigned, in progress and
    resolved.
  - Team, category and urgency are plain strings.
  - `Contact` has only the phone field the samples use.
  - `Draft` holds the resident-entered fields, each optional, standing for
    `Partial<Report>`.
- Storage.ReportStore.GetAndIncrementCounter: the counter is an unbounded `nat`;
  the source's is a JavaScript number, a double. From 2^53 (9007199254740992) on,
  `counter + 1` (src/lib/storage.ts:16-17) no longer yields the next integer. At
  2^53 it gives 2^53 again, so the stored counter stops moving and generated ids
  repeat. The model, and every contract about the counter, assumes the counter
  stays below 2^53.
- TrackingIds.TrackingIdsDistinct: proved for every pair of `nat` counters. For the
  source it holds only for counters below 2^53, for the reason above.
- TrackingIds.NatToString: models `toString()` only for values below 10^21. From
  10^21 on, JavaScript writes numbers in exponent form (`1e+21`), which the model
  does not produce. Such values lie beyond 2^53 in any case.
- Concurrency: cross-tab interleaving of read-modify-write cycles is not
  modelled. Each operation runs alone.
- Aliasing: the source returns the same object that it wrote into the list. The
  model returns an equal value.
- `src/components/Header.tsx` (navigation UI) is not part of this model.
