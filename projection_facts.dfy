/** What the projection contains: which versions get events, on which launch
    days, how many events there are, and where the special cases show up. */
module ProjectionFacts {
  import opened Versions
  import opened EventTable
  import opened DateSort
  import opened Events

  /** The versions that get events after the start version, in the order the
      loop reaches them: the first i stepped versions, minus skipped ones. */
  function EmittedVersions(v0: Version, i: nat): seq<Version> {
    if i == 0 then []
    else
      var earlier := EmittedVersions(v0, i - 1);
      if IsSkipped(Label(NextN(v0, i))) then earlier else earlier + [NextN(v0, i)]
  }

  /** The events of the versions vs, the k-th (counting from 1) launched
      k cycles after d0. */
  function Blocks(vs: seq<Version>, d0: int): seq<EventItem> {
    if vs == [] then []
    else Blocks(vs[..|vs| - 1], d0) + VersionEvents(Label(vs[|vs| - 1]), d0 + CycleDays * |vs|)
  }

  /** The loop state after i passes, in closed form. */
  function ClosedForm(v0: Version, d0: int, i: nat): Cursor {
    Cursor(
      NextN(v0, i),
      d0 + CycleDays * |EmittedVersions(v0, i)|,
      VersionEvents(Label(v0), d0) + Blocks(EmittedVersions(v0, i), d0))
  }

  /** After i passes of the loop: the version is the i-th successor of the
      start version, the launch day has moved one cycle per version that got
      events (skipped versions do not move it), and the events are the start
      version's followed by those of each emitted version in turn. */
  lemma {:induction false} RunClosedForm(v0: Version, d0: int, i: nat)
    ensures Run(v0, d0, i) == ClosedForm(v0, d0, i)
  {
    if i > 0 {
      RunClosedForm(v0, d0, i - 1);
      StepClosedForm(v0, d0, i);
      var c := Run(v0, d0, i - 1);
      assert c == ClosedForm(v0, d0, i - 1);
      assert Run(v0, d0, i) == Step(c);
    }
  }

  lemma StepClosedForm(v0: Version, d0: int, i: nat)
    requires i > 0
    ensures Step(ClosedForm(v0, d0, i - 1)) == ClosedForm(v0, d0, i)
  {
    var c := ClosedForm(v0, d0, i - 1);
    var earlier := EmittedVersions(v0, i - 1);
    var next := NextN(v0, i);
    assert Next(c.version) == next;
    if !IsSkipped(Label(next)) {
      var now := EmittedVersions(v0, i);
      assert now == earlier + [next];
      assert c.anchor + CycleDays == d0 + CycleDays * (|earlier| + 1);
      BlocksSnoc(earlier, next, d0);
      var head, added := VersionEvents(Label(v0), d0), VersionEvents(Label(next), c.anchor + CycleDays);
      AppendAssoc(head, Blocks(earlier, d0), added);
    }
  }

  lemma AppendAssoc<T>(a: seq<T>, b: seq<T>, c: seq<T>)
    ensures (a + b) + c == a + (b + c)
  {
  }

  /** One more emitted version adds its ten events at the end of the blocks. */
  lemma BlocksSnoc(vs: seq<Version>, w: Version, d0: int)
    ensures Blocks(vs + [w], d0) == Blocks(vs, d0) + VersionEvents(Label(w), d0 + CycleDays * (|vs| + 1))
  {
    assert (vs + [w])[..|vs|] == vs;
  }

  /** Blocks lays the versions out ten events each, the k-th (from 0) on
      indices 10k .. 10k+9, launched (k+1) cycles after d0. */
  lemma {:induction false} BlocksLayout(vs: seq<Version>, d0: int)
    ensures |Blocks(vs, d0)| == 10 * |vs|
    ensures forall k :: 0 <= k < |vs| ==>
      Blocks(vs, d0)[10 * k..10 * k + 10] == VersionEvents(Label(vs[k]), d0 + CycleDays * (k + 1))
  {
    if vs != [] {
      var init := vs[..|vs| - 1];
      BlocksLayout(init, d0);
      var front, last := Blocks(init, d0), VersionEvents(Label(vs[|vs| - 1]), d0 + CycleDays * |vs|);
      assert |last| == 10;
      var b := Blocks(vs, d0);
      assert b == front + last;
      forall k | 0 <= k < |vs|
        ensures b[10 * k..10 * k + 10] == VersionEvents(Label(vs[k]), d0 + CycleDays * (k + 1))
      {
        if k < |init| {
          SliceBefore(front, last, 10 * k, 10 * k + 10);
          assert init[k] == vs[k];
        } else {
          SliceAfter(front, last, 0, 10);
          assert last[0..10] == last;
        }
      }
    }
  }

  /** w is one of the versions the first i passes step to. */
  predicate Reached(v0: Version, i: nat, w: Version) {
    exists j :: 1 <= j <= i && w == NextN(v0, j)
  }

  /** The emitted versions are exactly the stepped versions that are not
      skipped, each reached by some pass, in strictly increasing order. */
  lemma {:induction false} EmittedVersionsSpec(v0: Version, i: nat)
    ensures forall w :: w in EmittedVersions(v0, i) ==> !IsSkipped(Label(w))
    ensures forall w :: w in EmittedVersions(v0, i) ==> Reached(v0, i, w)
    ensures forall j :: 1 <= j <= i && !IsSkipped(Label(NextN(v0, j))) ==>
      NextN(v0, j) in EmittedVersions(v0, i)
    ensures forall a, b :: 0 <= a < b < |EmittedVersions(v0, i)| ==>
      Later(EmittedVersions(v0, i)[a], EmittedVersions(v0, i)[b])
    ensures forall w :: w in EmittedVersions(v0, i) ==> Later(v0, w)
  {
    if i > 0 {
      EmittedVersionsSpec(v0, i - 1);
      var earlier := EmittedVersions(v0, i - 1);
      var next := NextN(v0, i);
      forall w | w in earlier ensures Later(w, next) && Reached(v0, i, w) {
        var j :| 1 <= j <= i - 1 && w == NextN(v0, j);
        NextNIncreasing(v0, j, i);
      }
      assert Reached(v0, i, next);
      NextNIncreasing(v0, 0, i);
    } else {
      assert EmittedVersions(v0, i) == [];
    }
  }

  /** From a well-formed start version, every emitted version has a minor in 0..8. */
  lemma EmittedVersionsWellFormed(v0: Version, i: nat)
    requires WellFormed(v0)
    ensures forall w :: w in EmittedVersions(v0, i) ==> WellFormed(w)
  {
    EmittedVersionsSpec(v0, i);
    forall w | w in EmittedVersions(v0, i) ensures WellFormed(w) {
      var j :| 1 <= j <= i && w == NextN(v0, j);
      NextNRank(v0, j);
    }
  }

  /** The emitted events: the start version's ten, then ten per emitted
      version, the k-th (from 1) launched k cycles after the start date. */
  lemma EmittedLayout(v0: Version, d0: int, numVersions: int)
    ensures var e, vs := Emitted(v0, d0, numVersions), EmittedVersions(v0, Passes(numVersions));
      |e| == 10 * (1 + |vs|) &&
      e[..10] == VersionEvents(Label(v0), d0) &&
      forall k :: 0 <= k < |vs| ==>
        e[10 * (k + 1)..10 * (k + 2)] == VersionEvents(Label(vs[k]), d0 + CycleDays * (k + 1))
  {
    var vs := EmittedVersions(v0, Passes(numVersions));
    RunClosedForm(v0, d0, Passes(numVersions));
    assert Emitted(v0, d0, numVersions) == VersionEvents(Label(v0), d0) + Blocks(vs, d0);
    HeadThenBlocks(Label(v0), vs, d0);
  }

  /** A version's ten events followed by the blocks of vs: each block sits
      ten places further on than in Blocks(vs, d0) alone. */
  lemma HeadThenBlocks(text: string, vs: seq<Version>, d0: int)
    ensures var e := VersionEvents(text, d0) + Blocks(vs, d0);
      |e| == 10 * (1 + |vs|) &&
      e[..10] == VersionEvents(text, d0) &&
      forall k :: 0 <= k < |vs| ==>
        e[10 * (k + 1)..10 * (k + 2)] == VersionEvents(Label(vs[k]), d0 + CycleDays * (k + 1))
  {
    BlocksLayout(vs, d0);
    var head, tail := VersionEvents(text, d0), Blocks(vs, d0);
    assert |head| == 10;
    forall k | 0 <= k < |vs|
      ensures (head + tail)[10 * (k + 1)..10 * (k + 2)] == VersionEvents(Label(vs[k]), d0 + CycleDays * (k + 1))
    {
      SliceAfter(head, tail, 10 * k, 10 * k + 10);
    }
  }

  /** A slice of the part before tail, read through head + tail. */
  lemma SliceBefore<T>(head: seq<T>, tail: seq<T>, a: nat, b: nat)
    requires a <= b <= |head|
    ensures (head + tail)[a..b] == head[a..b]
  {
    var s := head + tail;
    assert forall i :: 0 <= i < b - a ==> s[a..b][i] == head[a..b][i];
  }

  /** A slice of the part after head, read through head + tail. */
  lemma SliceAfter<T>(head: seq<T>, tail: seq<T>, a: nat, b: nat)
    requires a <= b <= |tail|
    ensures (head + tail)[|head| + a..|head| + b] == tail[a..b]
  {
    var s := head + tail;
    assert forall i :: 0 <= i < b - a ==> s[|head| + a..|head| + b][i] == tail[a..b][i];
  }

  /** The result holds ten events for the start version and ten for every
      stepped version that is not skipped. */
  lemma ProjectionCount(v0: Version, d0: int, numVersions: int)
    ensures |Projection(v0, d0, numVersions)| == 10 * (1 + |EmittedVersions(v0, Passes(numVersions))|)
  {
    EmittedLayout(v0, d0, numVersions);
    SortByDateSortedPermutation(Emitted(v0, d0, numVersions));
  }

  /** With no versions to look ahead, the result is the start version's ten
      events, sorted by day. */
  lemma NoPassesOnlyStart(v0: Version, d0: int, numVersions: int)
    requires numVersions <= 0
    ensures Emitted(v0, d0, numVersions) == VersionEvents(Label(v0), d0)
    ensures |Projection(v0, d0, numVersions)| == 10
  {
    VersionEventsSpec(Label(v0), d0);
    SortByDateSortedPermutation(VersionEvents(Label(v0), d0));
  }

  /** Only the start version's own events can carry a skipped label: every
      event from the eleventh on belongs to a version other than 1.7, 1.8, 2.8. */
  lemma NoSkippedAfterStart(v0: Version, d0: int, numVersions: int)
    ensures forall p :: 10 <= p < |Emitted(v0, d0, numVersions)| ==>
      !IsSkipped(Emitted(v0, d0, numVersions)[p].version)
  {
    var e := Emitted(v0, d0, numVersions);
    var vs := EmittedVersions(v0, Passes(numVersions));
    EmittedLayout(v0, d0, numVersions);
    EmittedVersionsSpec(v0, Passes(numVersions));
    forall p | 10 <= p < |e| ensures !IsSkipped(e[p].version) {
      var k := p / 10 - 1;
      assert 0 <= k < |vs|;
      VersionEventsSpec(Label(vs[k]), d0 + CycleDays * (k + 1));
      assert e[p] == e[10 * (k + 1)..10 * (k + 2)][p - 10 * (k + 1)];
      assert vs[k] in vs;
    }
  }

  /** A skipped version does not move the launch-day clock: from 2.7, two
      passes reach 2.8 (skipped) and then 3.0, whose events are anchored one
      cycle, not two, after 2.7's launch. */
  lemma SkipKeepsClock(d0: int)
    ensures EmittedVersions(Version(2, 7), 2) == [Version(3, 0)]
    ensures |Emitted(Version(2, 7), d0, 2)| == 20
    ensures Emitted(Version(2, 7), d0, 2)[10..20] == VersionEvents("3.0", d0 + CycleDays)
  {
    assert Label(Version(2, 8)) == "2.8";
    assert Label(Version(3, 0)) == "3.0";
    assert NextN(Version(2, 7), 2) == Version(3, 0);
    var vs := EmittedVersions(Version(2, 7), Passes(2));
    assert vs == [Version(3, 0)];
    assert vs[0] == Version(3, 0);
    EmittedLayout(Version(2, 7), d0, 2);
    assert Emitted(Version(2, 7), d0, 2)[10..20] == VersionEvents(Label(Version(3, 0)), d0 + CycleDays * 1);
  }

  /** Whenever version 3.7 gets events, the projection holds its pre-download
      on 2025-11-04. */
  lemma PinnedPreDownloadProjected(v0: Version, d0: int, numVersions: int)
    requires v0 == Version(3, 7) || Version(3, 7) in EmittedVersions(v0, Passes(numVersions))
    ensures EventItem(PinnedPreDownloadDate, "3.7 预下载", "3.7") in Projection(v0, d0, numVersions)
  {
    var e := Emitted(v0, d0, numVersions);
    var vs := EmittedVersions(v0, Passes(numVersions));
    var item := EventItem(PinnedPreDownloadDate, "3.7 预下载", "3.7");
    EmittedLayout(v0, d0, numVersions);
    assert Label(Version(3, 7)) == "3.7";
    if v0 == Version(3, 7) {
      VersionEventsSpec("3.7", d0);
      assert e[PreDownloadIndex] == item;
    } else {
      var k :| 0 <= k < |vs| && vs[k] == Version(3, 7);
      VersionEventsSpec("3.7", d0 + CycleDays * (k + 1));
      assert e[10 * (k + 1)..10 * (k + 2)][PreDownloadIndex] == item;
    }
    assert item in multiset(e);
    SortByDateSortedPermutation(e);
  }

  /** The worked example: from version 1.0 launched 2023-04-26, one version
      ahead, the result holds 1.0's opening on 2023-04-26, its second half
      on 2023-05-17, and 1.1's opening on 2023-06-07. */
  lemma InitialExample()
    ensures EventItem(DaysFromCivil(2023, 4, 26), "1.0 版本开启", "1.0") in Projection(InitialStartVersion, InitialStartDate, 1)
    ensures EventItem(DaysFromCivil(2023, 5, 17), "1.0 下半开启", "1.0") in Projection(InitialStartVersion, InitialStartDate, 1)
    ensures EventItem(DaysFromCivil(2023, 6, 7), "1.1 版本开启", "1.1") in Projection(InitialStartVersion, InitialStartDate, 1)
    ensures |Projection(InitialStartVersion, InitialStartDate, 1)| == 20
  {
    var e := Emitted(InitialStartVersion, InitialStartDate, 1);
    DayNumbers();
    assert Label(Version(1, 0)) == "1.0";
    assert Label(Version(1, 1)) == "1.1";
    assert EmittedVersions(InitialStartVersion, 1) == [Version(1, 1)];
    EmittedLayout(InitialStartVersion, InitialStartDate, 1);
    VersionEventsSpec("1.0", InitialStartDate);
    VersionEventsSpec("1.1", InitialStartDate + CycleDays);
    assert e[8] == EventItem(DaysFromCivil(2023, 4, 26), "1.0 版本开启", "1.0");
    assert e[9] == EventItem(DaysFromCivil(2023, 5, 17), "1.0 下半开启", "1.0");
    assert e[10..20][8] == EventItem(DaysFromCivil(2023, 6, 7), "1.1 版本开启", "1.1");
    assert e[8] in multiset(e) && e[9] in multiset(e) && e[18] in multiset(e);
    SortByDateSortedPermutation(e);
  }
}
