/** The fixed table of events each version brings, the record the projector
    emits for each, and the events one version contributes. Dates are day
    numbers counted from 1970-01-01, so "date + n days" is integer addition. */
module EventTable {
  import opened Versions

  /** Day number of a proleptic Gregorian date (days since 1970-01-01). */
  function DaysFromCivil(y: int, m: int, d: int): int
    requires 1 <= m <= 12 && 1 <= d <= 31
  {
    var y' := if m <= 2 then y - 1 else y;
    var era := y' / 400;
    var yoe := y' - era * 400;
    var mp := if m > 2 then m - 3 else m + 9;
    var doy := (153 * mp + 2) / 5 + d - 1;
    var doe := yoe * 365 + yoe / 4 - yoe / 100 + doy;
    era * 146097 + doe - 719468
  }

  /** The date version 3.7's pre-download is pinned to: 2025-11-04. */
  const PinnedPreDownloadDate: int := DaysFromCivil(2025, 11, 4)

  /** The seed values offered to callers: version 1.0 opened on 2023-04-26. */
  const InitialStartVersion: Version := Version(1, 0)
  const InitialStartDate: int := DaysFromCivil(2023, 4, 26)

  /** Length of one full version cycle, in days. */
  const CycleDays: int := 42

  const PreDownload: string := "预下载"

  /** Event names with their offset in days from the version's launch
      (first-half opening) day, in the order the table declares them. */
  const EventOffsets: seq<(string, int)> := [
    ("天外卫星通信", -57),
    ("测试服", -43),
    ("前瞻特别节目", -12),
    ("角色PV", -6),
    ("角色介绍", -5),
    ("活动速递", -4),
    (PreDownload, -2),
    ("走进星穹", -1),
    ("版本开启", 0),
    ("下半开启", 21)
  ]

  /** Where the pre-download entry sits in the table. */
  const PreDownloadIndex: nat := 6

  /** One projected event: its day, its label "<version> <name>" and its version. */
  datatype EventItem = EventItem(date: int, event: string, version: string)

  /** The event a table entry yields for a version launched on `anchor`. */
  function EventFor(version: string, anchor: int, entry: (string, int)): (r: EventItem)
    ensures r.version == version && r.event == version + " " + entry.0
    ensures version == "3.7" && entry.0 == PreDownload ==> r.date == PinnedPreDownloadDate
    ensures r.date != anchor + entry.1 ==> version == "3.7" && entry.0 == PreDownload
  {
    if version == "3.7" && entry.0 == PreDownload then
      EventItem(PinnedPreDownloadDate, version + " " + entry.0, version)
    else
      EventItem(anchor + entry.1, version + " " + entry.0, version)
  }

  /** The events of one version, one per table entry, in table order. */
  function VersionEvents(version: string, anchor: int): (r: seq<EventItem>)
    ensures |r| == |EventOffsets|
  {
    seq(|EventOffsets|, k requires 0 <= k < |EventOffsets| => EventFor(version, anchor, EventOffsets[k]))
  }

  /** The table has ten entries, its names are distinct and pre-download is
      the seventh, so the "3.7" exception touches exactly one entry. */
  lemma TableShape()
    ensures |EventOffsets| == 10
    ensures EventOffsets[PreDownloadIndex].0 == PreDownload
    ensures forall i, j :: 0 <= i < j < |EventOffsets| ==> EventOffsets[i].0 != EventOffsets[j].0
  {
  }

  /** A version yields ten events in table order, each labelled with the
      version and the event name, each dated launch day + offset, except that
      3.7's pre-download falls on 2025-11-04 whatever the launch day. */
  lemma VersionEventsSpec(version: string, anchor: int)
    ensures |VersionEvents(version, anchor)| == 10
    ensures forall k :: 0 <= k < 10 ==>
      VersionEvents(version, anchor)[k].version == version &&
      VersionEvents(version, anchor)[k].event == version + " " + EventOffsets[k].0
    ensures forall k :: 0 <= k < 10 && (version != "3.7" || k != PreDownloadIndex) ==>
      VersionEvents(version, anchor)[k].date == anchor + EventOffsets[k].1
    ensures version == "3.7" ==>
      VersionEvents(version, anchor)[PreDownloadIndex] == EventItem(PinnedPreDownloadDate, "3.7 预下载", "3.7")
  {
    TableShape();
  }

  /** The dates used by the model are the calendar days they are named after. */
  lemma DayNumbers()
    ensures PinnedPreDownloadDate == 20396
    ensures InitialStartDate == 19473
    ensures InitialStartDate + 21 == DaysFromCivil(2023, 5, 17)
    ensures InitialStartDate + CycleDays == DaysFromCivil(2023, 6, 7)
  {
  }
}
