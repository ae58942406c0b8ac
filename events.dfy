/** The event projector: given a start version, its launch day and a number
    of versions to look ahead, it lists the predicted events of every
    projected version, sorted by day. */
module Events {
  import opened Versions
  import opened EventTable
  import opened DateSort

  /** The array of events the projector fills by pushing and finally sorts
      in place. */
  class EventList {
    var items: seq<EventItem>

    constructor ()
      ensures items == []
    {
      items := [];
    }

    method Push(e: EventItem)
      modifies this
      ensures items == old(items) + [e]
    {
      items := items + [e];
    }

    /** Stable in-place sort by day: insertion sort by adjacent swaps. */
    method SortByDate()
      modifies this
      ensures items == DateSort.SortByDate(old(items))
    {
      ghost var orig := items;
      var i := 0;
      while i < |items|
        invariant 0 <= i <= |items| == |orig|
        invariant items[..i] == DateSort.SortByDate(orig[..i])
        invariant items[i..] == orig[i..]
      {
        SortByDateSortedPermutation(orig[..i]);
        Sink(i);
        assert orig[..i + 1][..i] == orig[..i];
        assert DateSort.SortByDate(orig[..i + 1]) == Insert(DateSort.SortByDate(orig[..i]), orig[i]);
        i := i + 1;
      }
      assert items[..i] == items && orig[..i] == orig;
    }

    /** Moves items[i] left past the later-dated items before it, so that
        a sorted items[..i] becomes a sorted items[..i + 1]. */
    method Sink(i: nat)
      requires i < |items|
      requires SortedByDate(items[..i])
      modifies this
      ensures |items| == old(|items|)
      ensures items[..i + 1] == Insert(old(items[..i]), old(items[i]))
      ensures items[i + 1..] == old(items[i + 1..])
    {
      ghost var sorted := items[..i];
      ghost var x := items[i];
      assert items[..i + 1] == sorted + [x];
      var j := i;
      while j > 0 && items[j - 1].date > items[j].date
        invariant 0 <= j <= i < |items| == old(|items|)
        invariant items[..i + 1] == sorted[..j] + [x] + sorted[j..]
        invariant forall k :: j <= k < i ==> x.date < sorted[k].date
        invariant items[i + 1..] == old(items[i + 1..])
      {
        assert items[j - 1] == sorted[j - 1] && items[j] == x;
        SwapBack(items, sorted, x, j, i);
        items := items[j - 1 := items[j]][j := items[j - 1]];
        j := j - 1;
      }
      assert j > 0 ==> items[j - 1] == sorted[j - 1] && items[j] == x;
      InsertAt(sorted, x, j);
    }
  }

  /** Swapping x with the element before it moves the splice point one left. */
  lemma SwapBack<T>(s: seq<T>, sorted: seq<T>, x: T, j: nat, i: nat)
    requires 0 < j <= i < |s|
    requires |sorted| == i
    requires s[..i + 1] == sorted[..j] + [x] + sorted[j..]
    ensures s[j - 1 := s[j]][j := s[j - 1]][..i + 1] == sorted[..j - 1] + [x] + sorted[j - 1..]
    ensures s[j - 1 := s[j]][j := s[j - 1]][i + 1..] == s[i + 1..]
  {
    var u := s[j - 1 := s[j]][j := s[j - 1]];
    SpliceAt(sorted, x, j);
    SpliceAt(sorted, x, j - 1);
    assert forall k :: 0 <= k < i + 1 ==> s[k] == s[..i + 1][k];
    forall k | 0 <= k < i + 1
      ensures u[k] == (sorted[..j - 1] + [x] + sorted[j - 1..])[k]
    {
      if k < j - 1 {
        assert u[k] == s[k] == sorted[k];
      } else if k > j {
        assert u[k] == s[k] == sorted[k - 1];
      }
    }
  }

  /** The elements of t with x spliced in at position j. */
  lemma SpliceAt<T>(t: seq<T>, x: T, j: nat)
    requires j <= |t|
    ensures |t[..j] + [x] + t[j..]| == |t| + 1
    ensures forall k :: 0 <= k < j ==> (t[..j] + [x] + t[j..])[k] == t[k]
    ensures (t[..j] + [x] + t[j..])[j] == x
    ensures forall k :: j < k <= |t| ==> (t[..j] + [x] + t[j..])[k] == t[k - 1]
  {
  }

  /** Appends one event per table entry, in table order, dated relative to
      `start` (the 3.7 pre-download excepted). */
  method PerVersion(version: string, start: int, events: EventList)
    modifies events
    ensures events.items == old(events.items) + VersionEvents(version, start)
  {
    for k := 0 to |EventOffsets|
      invariant events.items == old(events.items) + VersionEvents(version, start)[..k]
    {
      var (eventName, offset) := EventOffsets[k];
      if version == "3.7" && eventName == PreDownload {
        events.Push(EventItem(PinnedPreDownloadDate, version + " " + eventName, version));
        assert VersionEvents(version, start)[..k + 1] == VersionEvents(version, start)[..k] + [events.items[|events.items| - 1]];
        continue;
      }
      var eventDate := start + offset;
      events.Push(EventItem(eventDate, version + " " + eventName, version));
      assert VersionEvents(version, start)[..k + 1] == VersionEvents(version, start)[..k] + [events.items[|events.items| - 1]];
    }
  }

  // ---------------------------------------------------------------------------
  // Specification of the projection loop

  /** The loop's variables: the last stepped version, the launch day of the
      last version that got events, and the events so far. */
  datatype Cursor = Cursor(version: Version, anchor: int, events: seq<EventItem>)

  /** Before the loop: the start version's events. */
  function Start(v0: Version, d0: int): Cursor {
    Cursor(v0, d0, VersionEvents(Label(v0), d0))
  }

  /** One pass of the loop: step the version; a skipped version changes
      nothing else, any other gets its events 42 days after the previous
      launch day, which then moves there. */
  function Step(c: Cursor): Cursor {
    var next := Next(c.version);
    var nextStart := c.anchor + CycleDays;
    if IsSkipped(Label(next)) then Cursor(next, c.anchor, c.events)
    else Cursor(next, nextStart, c.events + VersionEvents(Label(next), nextStart))
  }

  /** The loop state after i passes. */
  function Run(v0: Version, d0: int, i: nat): Cursor {
    if i == 0 then Start(v0, d0) else Step(Run(v0, d0, i - 1))
  }

  /** A pass to a skipped version changes nothing but the version; a pass to
      any other version appends ten events and moves the launch day one cycle
      on. */
  lemma StepShape(c: Cursor)
    ensures Step(c).version == Next(c.version)
    ensures IsSkipped(Label(Next(c.version))) <==> Step(c).anchor == c.anchor
    ensures IsSkipped(Label(Next(c.version))) ==> Step(c).events == c.events
    ensures var r := Step(c);
      (r.anchor == c.anchor && r.events == c.events) ||
      (r.anchor == c.anchor + CycleDays && |r.events| == |c.events| + 10 &&
       r.events[..|c.events|] == c.events)
  {
    TableShape();
  }

  /** However many passes run, the start version's ten events stay first, and
      the launch day never moves back before the start date. */
  lemma {:induction false} RunKeepsStart(v0: Version, d0: int, i: nat)
    ensures Run(v0, d0, i).version == NextN(v0, i)
    ensures Run(v0, d0, i).anchor >= d0
    ensures |Run(v0, d0, i).events| >= 10
    ensures Run(v0, d0, i).events[..10] == VersionEvents(Label(v0), d0)
  {
    if i == 0 {
      TableShape();
    } else {
      RunKeepsStart(v0, d0, i - 1);
      var c := Run(v0, d0, i - 1);
      StepShape(c);
      assert c.events[..10] == Run(v0, d0, i).events[..|c.events|][..10];
    }
  }

  /** How many times `for (i = 0; i < numVersions; i++)` runs. */
  function Passes(numVersions: int): nat {
    if numVersions <= 0 then 0 else numVersions
  }

  /** The events in the order they are emitted. */
  function Emitted(v0: Version, d0: int, numVersions: int): seq<EventItem> {
    Run(v0, d0, Passes(numVersions)).events
  }

  /** What generateVersionEvents returns. */
  function Projection(v0: Version, d0: int, numVersions: int): seq<EventItem> {
    DateSort.SortByDate(Emitted(v0, d0, numVersions))
  }

  /** Projects `numVersions` versions past `startVersion`, launched on
      `startDate`, and returns all their events sorted by day. */
  method GenerateVersionEvents(startVersion: Version, startDate: int, numVersions: int)
    returns (r: seq<EventItem>)
    ensures r == Projection(startVersion, startDate, numVersions)
    ensures SortedByDate(r)
    ensures multiset(r) == multiset(Emitted(startVersion, startDate, numVersions))
    ensures forall d :: OnDay(r, d) == OnDay(Emitted(startVersion, startDate, numVersions), d)
  {
    var events := new EventList();
    PerVersion(Label(startVersion), startDate, events);
    var currentDate := startDate;
    var major, minor := startVersion.major, startVersion.minor;

    for i := 0 to Passes(numVersions)
      invariant Run(startVersion, startDate, i) == Cursor(Version(major, minor), currentDate, events.items)
    {
      ghost var before := Cursor(Version(major, minor), currentDate, events.items);
      if minor == 8 {
        major := major + 1;
        minor := 0;
      } else {
        minor := minor + 1;
      }
      assert Version(major, minor) == Next(before.version);
      var nextVersion := Label(Version(major, minor));
      var nextStart := currentDate + CycleDays;
      if IsSkipped(nextVersion) {
        assert Step(before) == Cursor(Version(major, minor), currentDate, events.items);
        continue;
      }
      PerVersion(nextVersion, nextStart, events);
      currentDate := nextStart;
      assert Step(before) == Cursor(Version(major, minor), currentDate, events.items);
    }

    ghost var emitted := events.items;
    events.SortByDate();
    r := events.items;
    SortByDateSortedPermutation(emitted);
    forall d ensures OnDay(r, d) == OnDay(emitted, d) {
      SortByDateStable(emitted, d);
    }
  }
}
