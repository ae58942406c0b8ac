# Version event projector, modelled in Dafny

`src/utils/events.ts` predicts the dates of the recurring events of a game's
release cadence: trailers, the test server, the preview broadcast,
pre-download, the version launch and the second-half launch. It takes a
start version, that version's launch day and a number of versions to look
ahead. It emits ten events per version from a fixed offset table, steps the
version number (X.8 is followed by (X+1).0), anchors each new version 42 days
after the last version that got events, skips versions 1.7, 1.8 and 2.8,
pins version 3.7's pre-download to 2025-11-04, and finally sorts everything
by date.

The model follows the source's form:

- `versions.dfy`, module `Versions`: the version pair, the numbering rule
  `Next`, the text label `${major}.${minor}` (`NatText`, `Label`) and the
  skip set.
- `event_table.dfy`, module `EventTable`: the `EVENT_OFFSETS` table as a
  sequence in declaration order, `EventItem`, the date constants and
  `VersionEvents`, the events one version yields.
- `date_sort.dfy`, module `DateSort`: the stable sort by date, specified as an
  insertion sort on sequences, with its properties: sorted, a permutation,
  and stable (on every day the events keep their emitted order).
- `events.dfy`, module `Events`: the imperative part. The JavaScript array is
  a class `EventList` whose `items` sequence is pushed to and sorted in place
  by adjacent swaps. The JavaScript engine sorts with an algorithm of its
  own, but it is stable. `StableSortUnique` shows that every stable sort by
  date gives the same result. `PerVersion` is the `for…in` loop over the table.
  `GenerateVersionEvents` is the projection loop, which updates `major`,
  `minor` and `currentDate`. Its invariant ties those variables to the
  specification function `Run`, one `Step` per pass.
- `projection_facts.dfy`, module `ProjectionFacts`: what the projection
  contains. It gives a closed form of the loop state, which versions get
  events, each version's launch day, the number of events, and where the
  special cases appear.

Dates are integer day numbers counted from 1970-01-01. Adding days is integer
addition, and the sort comparator `diff` becomes integer comparison.
`DaysFromCivil` names the fixed calendar days the file uses.

Two consequences of the code's order of statements:

- A skipped version does not move the 42-day clock: `continue`
  (events.ts:72) comes before `currentDate = nextStart` (events.ts:76), so
  the next version that gets events is anchored 42 days, not 84, after the
  previous one (`SkipKeepsClock`).
- The start version's events are emitted unconditionally, so only the events
  after the first ten are guaranteed not to belong to 1.7, 1.8 or 2.8
  (`NoSkippedAfterStart`).

## Model

| member | source | states |
|---|---|---|
| `Versions.Next` | src/utils/events.ts:60-65 | the next version is strictly later; from a minor in 0..8 it stays in 0..8 and is exactly one place further in the cadence 0.0, …, 0.8, 1.0, … |
| `Versions.NextNRank` | src/utils/events.ts:58-65 | k steps from a well-formed version land exactly k places later, and every minor stays in 0..8 |
| `Versions.NextNIncreasing` | src/utils/events.ts:58-65 | every pass reaches a strictly later version than any earlier pass, so no version is visited twice |
| `Versions.NatTextDigits` | src/utils/events.ts:67 | the decimal text of a number is non-empty and all digits, and has a single digit exactly for numbers below 10 |
| `Versions.NatTextInjective` | src/utils/events.ts:67 | different numbers print differently |
| `Versions.Label` | src/utils/events.ts:67 | the label `${major}.${minor}`: the major's digits, a dot, the minor's digits (its meaning is stated by `LabelInjective`) |
| `Versions.LabelInjective` | src/utils/events.ts:67 | different versions get different labels, so the string comparisons at lines 25 and 71 compare versions |
| `Versions.SkippedExactly` | src/utils/events.ts:70-73 | the `includes` test on the label holds exactly for versions 1.7, 1.8 and 2.8 |
| `Versions.IsSkipped` | src/utils/events.ts:71 | membership of the label in the list "1.7", "1.8", "2.8" (its meaning is stated by `SkippedExactly`) |
| `Versions.LabelIsThreeSeven` | src/utils/events.ts:25 | the label "3.7" belongs to version 3.7 and no other |
| `EventTable.TableShape` | src/utils/events.ts:4-15 | the table has ten entries with distinct names, pre-download being the seventh |
| `EventTable.EventFor` | src/utils/events.ts:25-40 | the event carries the version and the label "version name"; its date differs from launch day + offset only for 3.7's pre-download, which is dated 2025-11-04 |
| `EventTable.VersionEvents` | src/utils/events.ts:23-43 | one event per table entry (the full contract is `VersionEventsSpec`) |
| `EventTable.VersionEventsSpec` | src/utils/events.ts:23-43 | a version yields ten events in table order, each carrying the version and the label "version name" and dated launch day + offset, except that 3.7's pre-download is dated 2025-11-04 whatever the launch day |
| `EventTable.DayNumbers` | src/utils/events.ts:84-85 | the pinned day is 2025-11-04; the initial launch day 2023-04-26 plus 21 and 42 days gives 2023-05-17 and 2023-06-07 |
| `DateSort.InsertSorted` | src/utils/events.ts:80 | inserting into a sorted sequence keeps it sorted and adds exactly that one element |
| `DateSort.InsertAt` | src/utils/events.ts:80 | insertion places the element after every element of the same or an earlier day and before every later one |
| `DateSort.InsertOnDay` | src/utils/events.ts:80 | insertion appends the element after the events of its own day and leaves every other day's events unchanged |
| `DateSort.SortByDateSortedPermutation` | src/utils/events.ts:80 | the sorted result is non-decreasing by date and a permutation of the input |
| `DateSort.SortByDateStable` | src/utils/events.ts:80 | on every day, the events keep the order they had before sorting, as a stable sort keeps ties |
| `DateSort.SameDaysSame` | src/utils/events.ts:80 | two date-sorted sequences that hold the same events in the same order on every day are equal |
| `DateSort.StableSortUnique` | src/utils/events.ts:80 | any result that is sorted by date and keeps each day's events in input order, which is what any stable sort returns, equals the model's sort |
| `DateSort.SortByDateOfSorted` | src/utils/events.ts:80 | sorting a sequence that is already sorted leaves it unchanged |
| `Events.EventList.constructor` | src/utils/events.ts:53 | a new list is empty |
| `Events.EventList.Push` | src/utils/events.ts:27 | a push appends exactly one event at the end |
| `Events.EventList.SortByDate` | src/utils/events.ts:80 | the in-place sort leaves the list equal to the stable sort of its old contents |
| `Events.EventList.Sink` | src/utils/events.ts:80 | one insertion pass turns a sorted prefix of length i into a sorted prefix of length i+1 and touches nothing after it |
| `Events.PerVersion` | src/utils/events.ts:23-43 | the list grows by exactly the version's ten events, appended in table order after the unchanged old contents |
| `Events.StepShape` | src/utils/events.ts:59-76 | `Step`, one pass of the loop, steps the version and either changes nothing else (a skipped version) or appends ten events after the unchanged old ones and moves the launch day 42 days on |
| `Events.RunKeepsStart` | src/utils/events.ts:53-77 | in `Run`, after any number of passes, the version is the start version's successor that many times over, the start version's ten events are still first, and the launch day is never before the start date |
| `Events.GenerateVersionEvents` | src/utils/events.ts:52-81 | the result is the stable date sort of the events emitted by the loop: sorted, a permutation of them, and in emitted order within each day |
| `ProjectionFacts.RunClosedForm` | src/utils/events.ts:53-77 | after i passes the version is the start version's i-th successor; the launch day has moved 42 days per emitted version only; the events are the start version's followed by each emitted version's |
| `ProjectionFacts.StepClosedForm` | src/utils/events.ts:59-76 | one pass of the loop preserves that closed form, whether the new version is skipped or not |
| `ProjectionFacts.BlocksLayout` | src/utils/events.ts:68-76 | the k-th emitted version (counting from 0) occupies ten consecutive events and is launched (k+1)·42 days after the start |
| `ProjectionFacts.EmittedVersionsSpec` | src/utils/events.ts:58-74 | the versions that get events are exactly the stepped versions that are not 1.7, 1.8 or 2.8, in strictly increasing order, all after the start version |
| `ProjectionFacts.EmittedVersionsWellFormed` | src/utils/events.ts:60-65 | from a start minor in 0..8, every emitted version has a minor in 0..8 |
| `ProjectionFacts.EmittedLayout` | src/utils/events.ts:53-77 | the emitted events are ten for the start version at its launch day, then ten per emitted version, the k-th anchored at start + 42·k |
| `ProjectionFacts.ProjectionCount` | src/utils/events.ts:53-80 | the result has 10 × (1 + number of non-skipped stepped versions) events |
| `ProjectionFacts.NoPassesOnlyStart` | src/utils/events.ts:53-58 | with a look-ahead of zero or less the loop does not run, and the result is the start version's ten events |
| `ProjectionFacts.NoSkippedAfterStart` | src/utils/events.ts:71-74 | no event after the start version's ten belongs to 1.7, 1.8 or 2.8 |
| `ProjectionFacts.SkipKeepsClock` | src/utils/events.ts:68-76 | from 2.7, version 2.8 is skipped, and 3.0 is anchored 42 days (not 84) after 2.7 |
| `ProjectionFacts.PinnedPreDownloadProjected` | src/utils/events.ts:25-32 | whenever version 3.7 gets events, the result holds "3.7 预下载" on 2025-11-04 |
| `ProjectionFacts.InitialExample` | src/utils/events.ts:84-85 | from 1.0 on 2023-04-26 with one version ahead: 1.0's launch on 2023-04-26, its second half on 2023-05-17, 1.1's launch on 2023-06-07, 20 events in all |

## Left out

- Date strings: `dayjs` parsing and `format("YYYY-MM-DD")` are a foreign library. Dates are day numbers, and the output's `date` is that number, not its text.
- Malformed input: the code never rejects an unparseable start date or version string. It silently produces "Invalid Date" dates, and labels such as "NaN.NaN" or "3.NaN" for the stepped versions, while the start version's events keep the caller's string. The model takes a pair of naturals and an integer day and does not represent these outputs.
- Events.GenerateVersionEvents: the source labels the start version's own events with the caller's string as given, and parses it separately. The model labels them with the canonical `Label`. The two differ only for non-canonical strings such as "03.3".
- Events.GenerateVersionEvents: `numVersions` is an integer. A fractional JavaScript number, which would run the loop up to its ceiling, is not modelled.
- Events.PerVersion: the source also returns the array it was given. The only caller that uses that value (events.ts:53) gets back the fresh array it passed in, so the model returns nothing.
- `for…in` order: JavaScript visits these non-numeric keys in insertion order. The table is a sequence in that order.
- Number range: versions, day numbers and `numVersions` are unbounded integers. JavaScript's doubles (`major += 1` stops changing at 2^53, and the template literal prints exponent notation from 10^21) and the Date range (±10^8 days from 1970, beyond which `add` gives an invalid date) are not modelled.
- `INITIAL_START_VERSION` and `INITIAL_START_DATE` (events.ts:84-85) are plain data. They appear as the constants `InitialStartVersion` and `InitialStartDate` and are used in `InitialExample`.
- A "future events only" filter is not part of this file, so nothing models it.
