# Course dashboard figures, modelled in Dafny

This project models the figures that the course-management dashboard
(`DashboardOverview`) derives from the two collections it loads. The
collections are courses (`Kurse`: `record_id`, `titel`, `startdatum`,
`enddatum`, `preis`) and enrollments (`Anmeldungen`: a path-like reference
`kurs` and a payment flag `bezahlt`). The derived figures are:

- the active courses;
- the number of paid and pending enrollments;
- the total revenue (`gesamtEinnahmen`), the collected revenue (`bezahltEinnahmen`) and the outstanding revenue;
- the bar-chart data for the first eight courses, with each title shortened to a label;
- the five next upcoming courses.

Every derivation in the source is one expression built from `filter`,
`reduce`, `find`, `map`, `slice`, `sort` and `split('/').pop()`. The model
therefore uses functions over sequences, plus lemmas.

- `wrappers.dfy` (`Wrappers`): `Option`, for fields that may be `undefined`.
- `strings.dfy` (`Strings`): `LastSegment`, which is `split('/').pop()`, and
  `LexLe`, the order the sort comparator (`localeCompare`) gives on date
  strings. It also proves that `LexLe` is a total order.
- `arrays.dfy` (`Arrays`): the array methods `filter`, `filter(...).length`,
  `find`, `slice(0, n)` and a comparator `sort`, each with its defining
  contract.
- `dashboard.dfy` (`DashboardOverview`): the records, every derivation of
  lines 42-123, the pending count (line 269), the outstanding revenue
  (line 290), and the lemmas relating them.

Dates are abstract. `parse` stands for `parseISO` applied to a date-only
string. It gives the day number of the date, or None for an Invalid Date.
`today` is the day number of the moment the view renders. At day granularity,
`isBefore(d, now) || isToday(d)` means "day ≤ today" and
`isAfter(d, now) || isToday(d)` means "day ≥ today", whatever the time of
day. For a date-only string, which parses to midnight, `isAfter(d, now)`
means "day > today".

JavaScript truthiness is kept where the source relies on it. An empty
string counts as missing for `kurs` in the revenue sums, and also for
`titel`, `startdatum` and `enddatum`. A start or end date that is present
but cannot be parsed makes a course inactive. The chart count at line 111
does NOT skip an empty `kurs`. `"".split('/').pop()` is `""`, so an
enrollment with an empty reference is counted for a course whose id is
empty. Revenue skips such an enrollment. The model keeps this difference:
compare `RefersTo` with `ResolveCourse`. `ChartAndRevenueAgree` proves that
the two rules agree for every non-empty reference when the course ids are
distinct.

## Model

| member | source | states |
|---|---|---|
| `Strings.LastSegment` | src/pages/DashboardOverview.tsx:54 | the result has no '/', is a suffix of the reference, and is either the whole reference or directly preceded by a '/' |
| `Strings.LastSegmentOfPath` | src/pages/DashboardOverview.tsx:54 | a reference `<prefix>/<id>` with a '/'-free id resolves to exactly `id`, whatever the prefix |
| `Strings.LexLe` | src/pages/DashboardOverview.tsx:122 | the comparator's order puts the empty key (the `?? ''` fallback) before every string, and the first differing character decides the order: `a` ≤ `b` forces `a[0]` ≤ `b[0]` |
| `Strings.LexLeTotal` | src/pages/DashboardOverview.tsx:122 | any two start-date strings are comparable under the comparator's order |
| `Strings.LexLeTransitive` | src/pages/DashboardOverview.tsx:122 | the comparator's order is transitive |
| `Strings.LexLeAntisymmetric` | src/pages/DashboardOverview.tsx:122 | two strings that each compare ≤ the other are equal |
| `Arrays.Filter` | src/pages/DashboardOverview.tsx:43-48 | `filter` keeps exactly the elements that satisfy the predicate, each with its original multiplicity, and never lengthens the array |
| `Arrays.FilterKeepsOrder` | src/pages/DashboardOverview.tsx:43-48 | `filter` keeps the retained elements in their original order: its result is a subsequence of its input |
| `Arrays.Count` | src/pages/DashboardOverview.tsx:50 | `filter(...).length` is at most the array's length |
| `Arrays.CountComplement` | src/pages/DashboardOverview.tsx:269 | the elements satisfying a predicate and those satisfying its negation add up to the whole array |
| `Arrays.Find` | src/pages/DashboardOverview.tsx:55 | `find` returns None iff no element matches; otherwise it returns the FIRST matching element |
| `Arrays.SortBy` | src/pages/DashboardOverview.tsx:122 | the sorted array is a permutation of its input, ascending by key |
| `Arrays.Take` | src/pages/DashboardOverview.tsx:123 | `slice(0, n)` is a prefix of length min(n, length) |
| `Arrays.SortedPrefix` | src/pages/DashboardOverview.tsx:122-123 | a prefix of a sorted array is sorted and drawn from it, and every element left out has a key no smaller than any kept one |
| `DashboardOverview.IsActive` | src/pages/DashboardOverview.tsx:44-47 | a course without a (non-empty) start date is never active; an active course has a valid start day ≤ today and, when it has an end date, a valid end day ≥ today; a course that has started and has no end date is active |
| `DashboardOverview.AktiveKurse` | src/pages/DashboardOverview.tsx:43-48 | `aktiveKurse` holds exactly the active courses (start date valid and ≤ today; no end date, or a valid end date ≥ today), with their multiplicities |
| `DashboardOverview.StartingTodayIsActive` | src/pages/DashboardOverview.tsx:47 | a course starting today with no end date is active |
| `DashboardOverview.EndedYesterdayIsInactive` | src/pages/DashboardOverview.tsx:47 | a course whose end date was yesterday is inactive |
| `DashboardOverview.ActiveDaysAreAnInterval` | src/pages/DashboardOverview.tsx:43-48 | a course active on two days is active on every day between them |
| `DashboardOverview.ActiveIsNotUpcoming` | src/pages/DashboardOverview.tsx:121 | a course active today is never listed as upcoming |
| `DashboardOverview.BezahltCount` | src/pages/DashboardOverview.tsx:50 | `bezahltCount`, the number of enrollments whose flag is exactly true, never exceeds the number of enrollments |
| `DashboardOverview.PendingCount` | src/pages/DashboardOverview.tsx:269 | `anmeldungen.length - bezahltCount` is never negative and equals the number of enrollments not flagged paid |
| `DashboardOverview.ResolveCourse` | src/pages/DashboardOverview.tsx:53-55 | the lookup finds nothing iff the reference is missing or empty or no course id equals its last `/`-segment; what it finds is a course of `kurse` with that id, and it is the FIRST such course |
| `DashboardOverview.Price` | src/pages/DashboardOverview.tsx:53-56 | an enrollment adds 0 when its reference is missing or empty or matches no course id; otherwise it adds the price of the first course with that id, or 0 when that course has no price; without negative prices it is never negative |
| `DashboardOverview.GesamtEinnahmen` | src/pages/DashboardOverview.tsx:52-57 | total revenue is 0 when no enrollment resolves to a course, and is never negative without negative prices; its algebra is stated by `GesamtAppend`, `RevenueIgnoresUnresolved` and `GesamtSplitsByPayment` |
| `DashboardOverview.PaidPrice` | src/pages/DashboardOverview.tsx:60-63 | a paid enrollment adds to collected revenue exactly what it adds to the total, an unpaid one adds nothing (the extra reference test is subsumed by the lookup); without negative prices it adds between 0 and its total share |
| `DashboardOverview.BezahltEinnahmen` | src/pages/DashboardOverview.tsx:59-64 | collected revenue is 0 when no enrollment is paid, and is never negative without negative prices; `BezahltIsSumOverPaid` relates it to the total |
| `DashboardOverview.PathReferencePrice` | src/pages/DashboardOverview.tsx:54-56 | an enrollment referring to `<prefix>/<id>` adds the first matching course's price to the total, and to the collected sum only when paid |
| `DashboardOverview.RevenueIgnoresUnresolved` | src/pages/DashboardOverview.tsx:52-64 | inserting an enrollment whose reference resolves to no course anywhere in the list changes neither revenue sum |
| `DashboardOverview.BezahltIsSumOverPaid` | src/pages/DashboardOverview.tsx:59-64 | collected revenue equals the total revenue of the paid subset of the enrollments |
| `DashboardOverview.GesamtSplitsByPayment` | src/pages/DashboardOverview.tsx:52-64 | total revenue is the revenue of the paid enrollments plus that of the unpaid ones |
| `DashboardOverview.OutstandingRevenue` | src/pages/DashboardOverview.tsx:290 | `gesamtEinnahmen - bezahltEinnahmen` equals the price sum over the unpaid enrollments |
| `DashboardOverview.PaidRevenueBounded` | src/pages/DashboardOverview.tsx:52-64 | without negative prices, 0 ≤ collected revenue ≤ total revenue |
| `DashboardOverview.NegativePriceBreaksBound` | src/pages/DashboardOverview.tsx:52-64 | a course priced -10 with an unpaid enrollment and a course priced 10 with a paid one give 10 collected out of a total of 0, and -10 outstanding |
| `DashboardOverview.RevenueExample` | src/pages/DashboardOverview.tsx:52-64 | three courses priced 100/200/50, with enrollments B paid, B unpaid and C paid, give a total of 450, 250 collected and 200 outstanding |
| `DashboardOverview.PaymentCountExample` | src/pages/DashboardOverview.tsx:50 | two paid enrollments and one unpaid give a paid count of 2 and a pending count of 1 |
| `DashboardOverview.Label` | src/pages/DashboardOverview.tsx:115 | a label is at most 16 characters; a missing or empty title gives '—'; the title is kept iff it has at most 16 characters; otherwise the label is its first 14 characters followed by '…' |
| `DashboardOverview.LabelCutsAfterSixteen` | src/pages/DashboardOverview.tsx:115 | a 16-character title is shown in full; a 17-character title becomes 14 characters plus '…' |
| `DashboardOverview.RefersTo` | src/pages/DashboardOverview.tsx:110-111 | a reference that matches names a '/'-free id; a plain reference equal to a '/'-free id matches it; an empty reference matches exactly the empty id |
| `DashboardOverview.ChartEntries` | src/pages/DashboardOverview.tsx:109-117 | `map` gives one bar per course, in course order, with the course's label and its number of referring enrollments |
| `DashboardOverview.KursChartData` | src/pages/DashboardOverview.tsx:109-118 | `kursChartData` has exactly min(8, number of courses) bars, one for each leading course in order; each label has at most 16 characters and each count is at most the number of enrollments |
| `DashboardOverview.ChartTotalCountsEachOnce` | src/pages/DashboardOverview.tsx:110-113 | when course ids are distinct, the bars' counts add up to the number of enrollments that refer to any of those courses |
| `DashboardOverview.ChartTotalBounded` | src/pages/DashboardOverview.tsx:109-118 | when course ids are distinct, the bars together count at most the number of enrollments |
| `DashboardOverview.ChartAndRevenueAgree` | src/pages/DashboardOverview.tsx:110-112 | when course ids are distinct, a non-empty reference is counted in a course's bar iff the revenue lookup resolves it to that course |
| `DashboardOverview.StartsAfter` | src/pages/DashboardOverview.tsx:121 | a course is upcoming iff its start date is a valid day strictly after today; an upcoming course's sort key is its own non-empty start string, never the `''` fallback |
| `DashboardOverview.StartKey` | src/pages/DashboardOverview.tsx:122 | the key is empty iff the start date is missing or empty, and then it sorts before every other key |
| `DashboardOverview.UpcomingKurse` | src/pages/DashboardOverview.tsx:120-123 | `upcomingKurse` has at most 5 courses and exactly min(5, number of upcoming courses) of them; each is taken from `kurse` and starts strictly after today; they are sorted by start-date string; every upcoming course left out starts no earlier than any course listed |
| `DashboardOverview.UpcomingInDateOrder` | src/pages/DashboardOverview.tsx:120-123 | when start-date strings compare like their days (uniform ISO dates), the upcoming list is in ascending order of start day |

## Findings

| source | as written | input that shows it | evidently intended | confidence | as-written member | corrected member |
|---|---|---|---|---|---|---|
| src/pages/DashboardOverview.tsx:52-64, 290 | the revenue sums add `preis` without checking its sign | course `a` priced -10 with one unpaid enrollment, course `b` priced 10 with one paid enrollment: 10 collected, total 0, -10 outstanding | prices are never negative, so 0 ≤ collected ≤ total and the outstanding figure is never negative | not executed; low, since the data source may never hold a negative price | `DashboardOverview.NegativePriceBreaksBound` | `DashboardOverview.PaidRevenueBounded` |

## Left out

- Loading: the fetch of the five collections, the `loading` flag and the error logging (lines 19-40). This is asynchronous I/O against a service that is not part of this model.
- The counts of participants, instructors and rooms, and the KPI `stats` records (lines 66-107). They only copy lengths and the '—' placeholder, and the model has no values for them.
- All rendering: the chart components, colours, icons and layout (lines 125-297).
- The percentage of paid enrollments and its rounding (lines 275, 281). These are floating-point computations.
- The German number and date formatting (`toLocaleString('de-DE')`, `format(..., { locale: de })`). This formatting lives in foreign locale libraries.
- The real behaviour of `parseISO`, `isToday`, `isBefore` and `isAfter`. They are a date parameter and a day number, as described above. Time zones and date-time strings are not modelled. For a start date that carries a time later today (for instance `2026-10-11T18:00` at 10:00 on that day), the source counts the course as active (`isToday(start)`) AND as upcoming (`isAfter(start, today)`); the model does not. `ActiveIsNotUpcoming` therefore holds for date-only start strings only.
- `DashboardOverview.Price`: prices are unbounded integers. The source adds JavaScript numbers, which are IEEE doubles and may be fractional.
- `DashboardOverview.Label`: lengths are counted in Unicode characters. JavaScript's `length` and `slice` count UTF-16 code units, so titles containing characters outside the Basic Multilingual Plane are cut differently.
- `Strings.LexLe`: `localeCompare` is modelled as code-point order. This agrees with locale collation on uniform ISO date strings (digits, '-', 'T', ':'), but not on arbitrary text.
- `Arrays.SortBy`: it inserts stably, as JavaScript's `sort` does, but stability (ties keep their input order) is not proved.
- `DashboardOverview.UpcomingKurse`: the contract does not name the order of ties between equal start-date strings. That order follows from the stable sort above.
