/** The order the projector returns its events in: ascending by day, with
    events of the same day kept in the order they were emitted (the sort the
    source calls is stable). The specification is an insertion sort on
    sequences; the lemmas say what it guarantees. */
module DateSort {
  import opened EventTable

  predicate SortedByDate(s: seq<EventItem>) {
    forall i, j :: 0 <= i < j < |s| ==> s[i].date <= s[j].date
  }

  /** The events of `s` that fall on day `d`, in their order in `s`. */
  function OnDay(s: seq<EventItem>, d: int): seq<EventItem> {
    if s == [] then []
    else OnDay(s[..|s| - 1], d) + (if s[|s| - 1].date == d then [s[|s| - 1]] else [])
  }

  /** Places x after every element of t dated no later than x. */
  function Insert(t: seq<EventItem>, x: EventItem): seq<EventItem> {
    if t == [] then [x]
    else if x.date < t[0].date then [x] + t
    else [t[0]] + Insert(t[1..], x)
  }

  /** Stable sort by date: each element in turn is inserted after the
      already sorted ones of the same or an earlier day. */
  function SortByDate(s: seq<EventItem>): seq<EventItem> {
    if s == [] then [] else Insert(SortByDate(s[..|s| - 1]), s[|s| - 1])
  }

  // ---------------------------------------------------------------------------
  // Insert

  lemma InsertSorted(t: seq<EventItem>, x: EventItem)
    requires SortedByDate(t)
    ensures SortedByDate(Insert(t, x))
    ensures multiset(Insert(t, x)) == multiset(t) + multiset{x}
    ensures |Insert(t, x)| == |t| + 1
  {
    var j := FirstLater(t, x);
    InsertAt(t, x, j);
    var a, b := t[..j], t[j..];
    assert a + b == t;
    assert multiset(a + [x] + b) == multiset(a) + multiset{x} + multiset(b);
    SplicedSorted(t, x, j);
  }

  lemma SplicedSorted(t: seq<EventItem>, x: EventItem, j: nat)
    requires SortedByDate(t)
    requires j <= |t|
    requires j == 0 || t[j - 1].date <= x.date
    requires forall k :: j <= k < |t| ==> x.date < t[k].date
    ensures SortedByDate(t[..j] + [x] + t[j..])
  {
    var r := t[..j] + [x] + t[j..];
    assert forall i :: 0 <= i < j ==> r[i] == t[i];
    assert forall i :: j < i < |r| ==> r[i] == t[i - 1];
    forall i, k | 0 <= i < k < |r| ensures r[i].date <= r[k].date {
      if k < j {
      } else if k == j {
        assert t[i].date <= t[j - 1].date;
      } else if i < j {
        assert t[i].date <= t[k - 1].date;
      } else if i == j {
      } else {
        assert t[i - 1].date <= t[k - 1].date;
      }
    }
  }

  /** Where Insert puts x in a sorted t: after the prefix dated no later
      than x, before the suffix dated strictly later. */
  lemma InsertAt(t: seq<EventItem>, x: EventItem, j: nat)
    requires SortedByDate(t)
    requires j <= |t|
    requires j == 0 || t[j - 1].date <= x.date
    requires forall k :: j <= k < |t| ==> x.date < t[k].date
    ensures Insert(t, x) == t[..j] + [x] + t[j..]
  {
    forall k | 0 <= k < j ensures t[k].date <= x.date {
      assert t[k].date <= t[j - 1].date;
    }
    InsertAfterPrefix(t, x, j);
  }

  lemma {:induction false} InsertAfterPrefix(t: seq<EventItem>, x: EventItem, j: nat)
    requires j <= |t|
    requires forall k :: 0 <= k < j ==> t[k].date <= x.date
    requires forall k :: j <= k < |t| ==> x.date < t[k].date
    ensures Insert(t, x) == t[..j] + [x] + t[j..]
  {
    if j > 0 {
      var rest := t[1..];
      assert Insert(t, x) == [t[0]] + Insert(rest, x);
      InsertAfterPrefix(rest, x, j - 1);
      assert rest[..j - 1] == t[1..j] && rest[j - 1..] == t[j..];
      assert t[..j] == [t[0]] + t[1..j];
    }
  }

  lemma InsertOnDay(t: seq<EventItem>, x: EventItem, d: int)
    requires SortedByDate(t)
    ensures OnDay(Insert(t, x), d) == OnDay(t, d) + (if x.date == d then [x] else [])
  {
    var j := FirstLater(t, x);
    InsertAt(t, x, j);
    SplicedOnDay(t, x, j, d);
  }

  /** Splicing x in before a suffix of strictly later days adds x at the end
      of its own day's events. */
  lemma SplicedOnDay(t: seq<EventItem>, x: EventItem, j: nat, d: int)
    requires j <= |t|
    requires forall k :: j <= k < |t| ==> x.date < t[k].date
    ensures OnDay(t[..j] + [x] + t[j..], d) == OnDay(t, d) + (if x.date == d then [x] else [])
  {
    var a, b := t[..j], t[j..];
    var here := if x.date == d then [x] else [];
    assert a + b == t;
    OnDayAppend(a, b, d);
    OnDaySplice(a, x, b, d);
    if x.date == d {
      OnDayNone(b, d);
      assert OnDay(t, d) == OnDay(a, d);
    }
  }

  lemma OnDaySplice(a: seq<EventItem>, x: EventItem, b: seq<EventItem>, d: int)
    ensures OnDay(a + [x] + b, d) == OnDay(a, d) + (if x.date == d then [x] else []) + OnDay(b, d)
  {
    OnDayAppend(a + [x], b, d);
    OnDayAppend(a, [x], d);
    assert [x][..0] == [];
  }

  /** The position Insert chooses for x. */
  function FirstLater(t: seq<EventItem>, x: EventItem): (j: nat)
    requires SortedByDate(t)
    ensures j <= |t|
    ensures j == 0 || t[j - 1].date <= x.date
    ensures forall k :: j <= k < |t| ==> x.date < t[k].date
  {
    if t == [] || t[|t| - 1].date <= x.date then |t|
    else FirstLater(t[..|t| - 1], x)
  }

  lemma {:induction false} OnDayAppend(s: seq<EventItem>, u: seq<EventItem>, d: int)
    ensures OnDay(s + u, d) == OnDay(s, d) + OnDay(u, d)
  {
    if u != [] {
      assert (s + u)[..|s + u| - 1] == s + u[..|u| - 1];
      OnDayAppend(s, u[..|u| - 1], d);
    } else {
      assert s + u == s;
    }
  }

  lemma {:induction false} OnDayNone(s: seq<EventItem>, d: int)
    requires forall k :: 0 <= k < |s| ==> s[k].date != d
    ensures OnDay(s, d) == []
  {
    if s != [] {
      OnDayNone(s[..|s| - 1], d);
    }
  }

  // ---------------------------------------------------------------------------
  // SortByDate

  /** The result is ascending by date and a permutation of the input. */
  lemma {:induction false} SortByDateSortedPermutation(s: seq<EventItem>)
    ensures SortedByDate(SortByDate(s))
    ensures multiset(SortByDate(s)) == multiset(s)
    ensures |SortByDate(s)| == |s|
  {
    if s != [] {
      var init := s[..|s| - 1];
      SortByDateSortedPermutation(init);
      InsertSorted(SortByDate(init), s[|s| - 1]);
      assert s == init + [s[|s| - 1]];
    }
  }

  /** Stability: on every day the events keep the order they had in the input. */
  lemma {:induction false} SortByDateStable(s: seq<EventItem>, d: int)
    ensures OnDay(SortByDate(s), d) == OnDay(s, d)
  {
    if s != [] {
      var init := s[..|s| - 1];
      SortByDateStable(init, d);
      SortByDateSortedPermutation(init);
      InsertOnDay(SortByDate(init), s[|s| - 1], d);
    }
  }

  /** Sorting what is already sorted changes nothing. */
  lemma {:induction false} SortByDateOfSorted(s: seq<EventItem>)
    requires SortedByDate(s)
    ensures SortByDate(s) == s
  {
    if s != [] {
      var init := s[..|s| - 1];
      SortByDateOfSorted(init);
      InsertAt(init, s[|s| - 1], |init|);
      assert init + [s[|s| - 1]] == s;
    }
  }

  // ---------------------------------------------------------------------------
  // Uniqueness: every stable sort by date returns SortByDate

  lemma {:induction false} OnDayIn(s: seq<EventItem>, d: int)
    ensures forall e :: e in OnDay(s, d) ==> e in s && e.date == d
  {
    if s != [] {
      OnDayIn(s[..|s| - 1], d);
    }
  }

  /** Two sorted sequences that hold the same events in the same order on
      every day are equal. */
  lemma {:induction false} SameDaysSame(r1: seq<EventItem>, r2: seq<EventItem>)
    requires SortedByDate(r1) && SortedByDate(r2)
    requires forall d :: OnDay(r1, d) == OnDay(r2, d)
    ensures r1 == r2
    decreases |r1| + |r2|
  {
    if r2 != [] {
      assert OnDay(r2, r2[|r2| - 1].date) == OnDay(r1, r2[|r2| - 1].date);
      NonEmptyAgree(r2, r1);
    }
    if r1 != [] {
      assert OnDay(r1, r1[|r1| - 1].date) == OnDay(r2, r1[|r1| - 1].date);
      NonEmptyAgree(r1, r2);
      assert OnDay(r1, r2[|r2| - 1].date) == OnDay(r2, r2[|r2| - 1].date);
      SameLast(r1, r2);
      var init1, init2 := r1[..|r1| - 1], r2[..|r2| - 1];
      forall d ensures OnDay(init1, d) == OnDay(init2, d) {
        InitDayAgree(r1, r2, d);
      }
      SameDaysSame(init1, init2);
      assert r1 == init1 + [r1[|r1| - 1]] && r2 == init2 + [r2[|r2| - 1]];
    }
  }

  /** If r1 is not empty, neither is a sequence holding the same events on
      the day of r1's last event. */
  lemma NonEmptyAgree(r1: seq<EventItem>, r2: seq<EventItem>)
    requires r1 != []
    requires OnDay(r1, r1[|r1| - 1].date) == OnDay(r2, r1[|r1| - 1].date)
    ensures r2 != []
  {
    var e := r1[|r1| - 1];
    assert OnDay(r1, e.date) == OnDay(r1[..|r1| - 1], e.date) + [e];
    assert OnDay([], e.date) == [];
  }

  /** The last event of a sorted sequence is the last of its day; two sorted
      sequences agreeing on both last days end with the same event. */
  lemma SameLast(r1: seq<EventItem>, r2: seq<EventItem>)
    requires SortedByDate(r1) && SortedByDate(r2)
    requires r1 != [] && r2 != []
    requires OnDay(r1, r1[|r1| - 1].date) == OnDay(r2, r1[|r1| - 1].date)
    requires OnDay(r1, r2[|r2| - 1].date) == OnDay(r2, r2[|r2| - 1].date)
    ensures r1[|r1| - 1] == r2[|r2| - 1]
  {
    var e, f := r1[|r1| - 1], r2[|r2| - 1];
    assert OnDay(r1, e.date) == OnDay(r1[..|r1| - 1], e.date) + [e];
    assert OnDay(r2, f.date) == OnDay(r2[..|r2| - 1], f.date) + [f];
    NotAfterLast(r2, e.date, e);
    NotAfterLast(r1, f.date, f);
    var both := OnDay(r1, e.date);
    assert both[|both| - 1] == e;
  }

  /** An event of a sorted sequence is no later than its last event. */
  lemma NotAfterLast(r: seq<EventItem>, d: int, e: EventItem)
    requires SortedByDate(r) && r != []
    requires e in OnDay(r, d)
    ensures e.date == d && e.date <= r[|r| - 1].date
  {
    OnDayIn(r, d);
    var k :| 0 <= k < |r| && r[k] == e;
    assert k == |r| - 1 || r[k].date <= r[|r| - 1].date;
  }

  lemma InitDayAgree(r1: seq<EventItem>, r2: seq<EventItem>, d: int)
    requires r1 != [] && r2 != [] && r1[|r1| - 1] == r2[|r2| - 1]
    requires OnDay(r1, d) == OnDay(r2, d)
    ensures OnDay(r1[..|r1| - 1], d) == OnDay(r2[..|r2| - 1], d)
  {
    var init1, init2 := r1[..|r1| - 1], r2[..|r2| - 1];
    var e := r1[|r1| - 1];
    if e.date == d {
      assert OnDay(r1, d) == OnDay(init1, d) + [e];
      assert OnDay(r2, d) == OnDay(init2, d) + [e];
      assert OnDay(init1, d) == OnDay(r1, d)[..|OnDay(r1, d)| - 1];
    } else {
      assert OnDay(init1, d) == OnDay(r1, d) && OnDay(init2, d) == OnDay(r2, d);
    }
  }

  /** Whatever stable sorting algorithm is used, a result sorted by date that
      keeps each day's events in input order is SortByDate's result. */
  lemma StableSortUnique(s: seq<EventItem>, r: seq<EventItem>)
    requires SortedByDate(r)
    requires forall d :: OnDay(r, d) == OnDay(s, d)
    ensures r == SortByDate(s)
  {
    SortByDateSortedPermutation(s);
    forall d ensures OnDay(r, d) == OnDay(SortByDate(s), d) {
      SortByDateStable(s, d);
    }
    SameDaysSame(r, SortByDate(s));
  }
}
