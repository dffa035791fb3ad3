/**
 * The figures the course dashboard derives from its two loaded collections,
 * courses (`Kurse`) and enrollments (`Anmeldungen`): the active courses, the
 * paid and pending counts, the total and collected revenue, the per-course
 * bar-chart data and the five next upcoming courses.
 *
 * Dates: `parse` stands for `parseISO` on a date-only string and yields the
 * day number of that date, or None for an Invalid Date; `today` is the day
 * number of the moment of rendering.
 */
module DashboardOverview {
  import opened Wrappers
  import opened Strings
  import opened Arrays

  /** A course record: its id and the fields this view reads. */
  datatype Course = Course(
    recordId: string,
    titel: Option<string>,
    startdatum: Option<string>,
    enddatum: Option<string>,
    preis: Option<int>)

  /** An enrollment record: a path-like reference to a course and a payment flag. */
  datatype Enrollment = Enrollment(kurs: Option<string>, bezahlt: Option<bool>)

  /** A calendar day; consecutive days are consecutive numbers. */
  type Day = int

  /** `parseISO` on a date-only string: its day, or None for an Invalid Date. */
  type DateParser = string -> Option<Day>

  /** JavaScript truthiness of an optional string field: present and not empty. */
  predicate Truthy(s: Option<string>)
  {
    s.Some? && s.value != ""
  }

  // ---------------------------------------------------------------------------
  // Active courses
  // ---------------------------------------------------------------------------

  /**
   * A course is running today: it has a start date that is a valid date on or
   * before today, and either no end date or a valid end date on or after today.
   */
  predicate IsActive(c: Course, parse: DateParser, today: Day): (b: bool)
    ensures !Truthy(c.startdatum) ==> !b
    ensures b ==> StartDay(c, parse).Some? && StartDay(c, parse).value <= today
    ensures b && Truthy(c.enddatum) ==> parse(c.enddatum.value).Some? && today <= parse(c.enddatum.value).value
    ensures StartDay(c, parse).Some? && StartDay(c, parse).value <= today && !Truthy(c.enddatum) ==> b
  {
    && Truthy(c.startdatum)
    && parse(c.startdatum.value).Some?
    && parse(c.startdatum.value).value <= today
    && (|| !Truthy(c.enddatum)
        || (parse(c.enddatum.value).Some? && parse(c.enddatum.value).value >= today))
  }

  function ActiveOn(parse: DateParser, today: Day): Course -> bool
  {
    (c: Course) => IsActive(c, parse, today)
  }

  /** `aktiveKurse`: every active course of `kurse`, each as often as it occurs there. */
  function AktiveKurse(kurse: seq<Course>, parse: DateParser, today: Day): (r: seq<Course>)
    ensures |r| <= |kurse|
    ensures forall c :: c in r ==> IsActive(c, parse, today)
    ensures forall c :: multiset(r)[c] == if IsActive(c, parse, today) then multiset(kurse)[c] else 0
  {
    Filter(kurse, ActiveOn(parse, today))
  }

  /** A course that starts today and has no end date is active. */
  lemma StartingTodayIsActive(c: Course, parse: DateParser, today: Day)
    requires Truthy(c.startdatum) && parse(c.startdatum.value) == Some(today)
    requires !Truthy(c.enddatum)
    ensures IsActive(c, parse, today)
  {
  }

  /** A course whose end date was yesterday is no longer active. */
  lemma EndedYesterdayIsInactive(c: Course, parse: DateParser, today: Day)
    requires Truthy(c.enddatum) && parse(c.enddatum.value) == Some(today - 1)
    ensures !IsActive(c, parse, today)
  {
  }

  /** The days on which a course is active form an interval: no gaps between two active days. */
  lemma ActiveDaysAreAnInterval(c: Course, parse: DateParser, first: Day, day: Day, last: Day)
    requires first <= day <= last
    requires IsActive(c, parse, first) && IsActive(c, parse, last)
    ensures IsActive(c, parse, day)
  {
  }

  // ---------------------------------------------------------------------------
  // Paid and pending enrollments
  // ---------------------------------------------------------------------------

  /** `a.fields.bezahlt === true`. */
  predicate IsPaid(a: Enrollment)
  {
    a.bezahlt == Some(true)
  }

  /** Not paid: the flag is false or missing. */
  predicate IsPending(a: Enrollment)
  {
    !IsPaid(a)
  }

  /** `bezahltCount`: the number of paid enrollments, at most the number of enrollments. */
  function BezahltCount(anmeldungen: seq<Enrollment>): (n: nat)
    ensures n <= |anmeldungen|
  {
    Count(anmeldungen, IsPaid)
  }

  /** The "ausstehend" figure `anmeldungen.length - bezahltCount`: the number of unpaid enrollments. */
  function PendingCount(anmeldungen: seq<Enrollment>): (n: nat)
    ensures n == Count(anmeldungen, IsPending)
    ensures n + BezahltCount(anmeldungen) == |anmeldungen|
  {
    CountComplement(anmeldungen, IsPaid, IsPending);
    |anmeldungen| - BezahltCount(anmeldungen)
  }

  // ---------------------------------------------------------------------------
  // Revenue
  // ---------------------------------------------------------------------------

  function HasId(id: string): Course -> bool
  {
    (k: Course) => k.recordId == id
  }

  /**
   * The course an enrollment points at: the first course whose id is the last
   * `/`-segment of a non-empty `kurs` reference.
   */
  function ResolveCourse(kurse: seq<Course>, a: Enrollment): (r: Option<Course>)
    ensures r.None? <==>
              || !Truthy(a.kurs)
              || forall i :: 0 <= i < |kurse| ==> kurse[i].recordId != LastSegment(a.kurs.value)
    ensures r.Some? ==> r.value in kurse && r.value.recordId == LastSegment(a.kurs.value)
    ensures forall i ::
              && Truthy(a.kurs) && 0 <= i < |kurse|
              && kurse[i].recordId == LastSegment(a.kurs.value)
              && (forall j :: 0 <= j < i ==> kurse[j].recordId != LastSegment(a.kurs.value))
              ==> r == Some(kurse[i])
  {
    if !Truthy(a.kurs) then None else Find(kurse, HasId(LastSegment(a.kurs.value)))
  }

  /**
   * What one enrollment adds to a revenue sum: 0 for a missing or empty
   * reference or one that matches no course id; otherwise the price of the
   * FIRST course with that id, 0 when that course has no price.
   */
  function Price(kurse: seq<Course>, a: Enrollment): (p: int)
    ensures !Truthy(a.kurs) ==> p == 0
    ensures Truthy(a.kurs) && (forall i :: 0 <= i < |kurse| ==> kurse[i].recordId != LastSegment(a.kurs.value))
            ==> p == 0
    ensures forall i ::
              && Truthy(a.kurs) && 0 <= i < |kurse|
              && kurse[i].recordId == LastSegment(a.kurs.value)
              && (forall j :: 0 <= j < i ==> kurse[j].recordId != LastSegment(a.kurs.value))
              ==> p == kurse[i].preis.GetOr(0)
    ensures forall k :: k in kurse && Truthy(a.kurs) && ResolveCourse(kurse, a) == Some(k) ==> p == k.preis.GetOr(0)
    ensures NonNegativePrices(kurse) ==> p >= 0
  {
    match ResolveCourse(kurse, a)
    case None => 0
    case Some(k) => k.preis.GetOr(0)
  }

  /** `gesamtEinnahmen`: the prices of the courses all enrollments resolve to, summed. */
  function GesamtEinnahmen(kurse: seq<Course>, anmeldungen: seq<Enrollment>): (r: int)
    ensures NonNegativePrices(kurse) ==> r >= 0
    ensures (forall i :: 0 <= i < |anmeldungen| ==> ResolveCourse(kurse, anmeldungen[i]).None?) ==> r == 0
  {
    if |anmeldungen| == 0 then 0
    else
      assert forall i :: 1 <= i < |anmeldungen| ==> anmeldungen[1..][i - 1] == anmeldungen[i];
      Price(kurse, anmeldungen[0]) + GesamtEinnahmen(kurse, anmeldungen[1..])
  }

  /** What one enrollment adds to collected revenue: nothing unless it has a reference and is paid. */
  function PaidPrice(kurse: seq<Course>, a: Enrollment): (p: int)
    ensures p == if IsPaid(a) then Price(kurse, a) else 0
    ensures NonNegativePrices(kurse) ==> 0 <= p <= Price(kurse, a)
  {
    if !Truthy(a.kurs) || !IsPaid(a) then 0 else Price(kurse, a)
  }

  /** `bezahltEinnahmen`: the same sum, skipping enrollments without a reference or not paid. */
  function BezahltEinnahmen(kurse: seq<Course>, anmeldungen: seq<Enrollment>): (r: int)
    ensures NonNegativePrices(kurse) ==> r >= 0
    ensures (forall i :: 0 <= i < |anmeldungen| ==> !IsPaid(anmeldungen[i])) ==> r == 0
  {
    if |anmeldungen| == 0 then 0
    else
      assert forall i :: 1 <= i < |anmeldungen| ==> anmeldungen[1..][i - 1] == anmeldungen[i];
      PaidPrice(kurse, anmeldungen[0]) + BezahltEinnahmen(kurse, anmeldungen[1..])
  }

  lemma {:induction false} GesamtAppend(kurse: seq<Course>, xs: seq<Enrollment>, ys: seq<Enrollment>)
    ensures GesamtEinnahmen(kurse, xs + ys) == GesamtEinnahmen(kurse, xs) + GesamtEinnahmen(kurse, ys)
  {
    if |xs| > 0 {
      assert (xs + ys)[1..] == xs[1..] + ys;
      GesamtAppend(kurse, xs[1..], ys);
    } else {
      assert xs + ys == ys;
    }
  }

  lemma {:induction false} BezahltAppend(kurse: seq<Course>, xs: seq<Enrollment>, ys: seq<Enrollment>)
    ensures BezahltEinnahmen(kurse, xs + ys) == BezahltEinnahmen(kurse, xs) + BezahltEinnahmen(kurse, ys)
  {
    if |xs| > 0 {
      assert (xs + ys)[1..] == xs[1..] + ys;
      BezahltAppend(kurse, xs[1..], ys);
    } else {
      assert xs + ys == ys;
    }
  }

  /**
   * An enrollment whose reference is missing, empty or matches no course id
   * changes neither revenue sum, wherever it stands in the list.
   */
  lemma RevenueIgnoresUnresolved(kurse: seq<Course>, before: seq<Enrollment>, a: Enrollment, after: seq<Enrollment>)
    requires !Truthy(a.kurs) || forall i :: 0 <= i < |kurse| ==> kurse[i].recordId != LastSegment(a.kurs.value)
    ensures GesamtEinnahmen(kurse, before + [a] + after) == GesamtEinnahmen(kurse, before + after)
    ensures BezahltEinnahmen(kurse, before + [a] + after) == BezahltEinnahmen(kurse, before + after)
  {
    GesamtAppend(kurse, before + [a], after);
    GesamtAppend(kurse, before, [a]);
    GesamtAppend(kurse, before, after);
    BezahltAppend(kurse, before + [a], after);
    BezahltAppend(kurse, before, [a]);
    BezahltAppend(kurse, before, after);
  }

  /**
   * An enrollment referring to `<prefix>/<id>` is charged the price of the
   * first course whose id is `id`, whatever the prefix and the payment flag.
   */
  lemma PathReferencePrice(kurse: seq<Course>, a: Enrollment, prefix: string, id: string, i: nat)
    requires a.kurs == Some(prefix + "/" + id) && '/' !in id
    requires i < |kurse| && kurse[i].recordId == id
    requires forall j :: 0 <= j < i ==> kurse[j].recordId != id
    ensures Price(kurse, a) == kurse[i].preis.GetOr(0)
    ensures PaidPrice(kurse, a) == if IsPaid(a) then kurse[i].preis.GetOr(0) else 0
  {
    LastSegmentOfPath(prefix, id);
    assert (prefix + "/" + id)[|prefix|] == '/';
  }

  /** Collected revenue is the total revenue of the paid enrollments alone. */
  lemma {:induction false} BezahltIsSumOverPaid(kurse: seq<Course>, anmeldungen: seq<Enrollment>)
    ensures BezahltEinnahmen(kurse, anmeldungen) == GesamtEinnahmen(kurse, Filter(anmeldungen, IsPaid))
  {
    if |anmeldungen| > 0 {
      var a := anmeldungen[0];
      BezahltIsSumOverPaid(kurse, anmeldungen[1..]);
      GesamtAppend(kurse, if IsPaid(a) then [a] else [], Filter(anmeldungen[1..], IsPaid));
    }
  }

  /** Total revenue splits into the revenue of the paid and of the unpaid enrollments. */
  lemma {:induction false} GesamtSplitsByPayment(kurse: seq<Course>, anmeldungen: seq<Enrollment>)
    ensures GesamtEinnahmen(kurse, anmeldungen)
            == GesamtEinnahmen(kurse, Filter(anmeldungen, IsPaid)) + GesamtEinnahmen(kurse, Filter(anmeldungen, IsPending))
  {
    if |anmeldungen| > 0 {
      var a := anmeldungen[0];
      GesamtSplitsByPayment(kurse, anmeldungen[1..]);
      GesamtAppend(kurse, if IsPaid(a) then [a] else [], Filter(anmeldungen[1..], IsPaid));
      GesamtAppend(kurse, if IsPending(a) then [a] else [], Filter(anmeldungen[1..], IsPending));
    }
  }

  /** The "Ausstehend" revenue `gesamtEinnahmen - bezahltEinnahmen`: the prices owed by unpaid enrollments. */
  function OutstandingRevenue(kurse: seq<Course>, anmeldungen: seq<Enrollment>): (r: int)
    ensures r == GesamtEinnahmen(kurse, Filter(anmeldungen, IsPending))
  {
    BezahltIsSumOverPaid(kurse, anmeldungen);
    GesamtSplitsByPayment(kurse, anmeldungen);
    GesamtEinnahmen(kurse, anmeldungen) - BezahltEinnahmen(kurse, anmeldungen)
  }

  /** No course has a negative price (a missing price counts as 0). */
  predicate NonNegativePrices(kurse: seq<Course>)
  {
    forall k :: k in kurse ==> k.preis.GetOr(0) >= 0
  }

  /** With no negative prices, collected revenue lies between 0 and total revenue. */
  lemma {:induction false} PaidRevenueBounded(kurse: seq<Course>, anmeldungen: seq<Enrollment>)
    requires NonNegativePrices(kurse)
    ensures 0 <= BezahltEinnahmen(kurse, anmeldungen) <= GesamtEinnahmen(kurse, anmeldungen)
  {
    BezahltIsSumOverPaid(kurse, anmeldungen);
    GesamtSplitsByPayment(kurse, anmeldungen);
  }

  // ---------------------------------------------------------------------------
  // Bar-chart data
  // ---------------------------------------------------------------------------

  /** One bar: a label and the number of enrollments of the course. */
  datatype ChartEntry = ChartEntry(name: string, anmeldungen: nat)

  const Ellipsis: char := '\U{2026}'
  const Placeholder: string := "\U{2014}"

  /**
   * The bar label of a course title: no title (or an empty one) gives a dash;
   * a title of at most 16 characters is kept; a longer one is cut to its first
   * 14 characters followed by an ellipsis.
   */
  function Label(titel: Option<string>): (r: string)
    ensures |r| <= 16
    ensures !Truthy(titel) ==> r == Placeholder
    ensures Truthy(titel) ==> (r == titel.value <==> |titel.value| <= 16)
    ensures Truthy(titel) && r != titel.value ==> |r| == 15 && r[..14] == titel.value[..14] && r[14] == Ellipsis
  {
    if !Truthy(titel) then Placeholder
    else if |titel.value| > 16 then titel.value[..14] + [Ellipsis]
    else titel.value
  }

  /** The two lengths on either side of the cut: 16 characters are kept, 17 are shortened to 15. */
  lemma LabelCutsAfterSixteen(t16: string, t17: string)
    requires |t16| == 16 && |t17| == 17
    ensures Label(Some(t16)) == t16
    ensures Label(Some(t17)) == t17[..14] + [Ellipsis] && |Label(Some(t17))| == 15
  {
  }

  /** `a.fields.kurs?.split('/').pop() === id`: unlike revenue, an empty reference is not skipped. */
  predicate RefersTo(a: Enrollment, id: string): (b: bool)
    ensures b ==> a.kurs.Some? && '/' !in id
    ensures a.kurs == Some(id) && '/' !in id ==> b
    ensures a.kurs == Some("") ==> (b <==> id == "")
  {
    a.kurs.Some? && LastSegment(a.kurs.value) == id
  }

  function RefersToCourse(id: string): Enrollment -> bool
  {
    (a: Enrollment) => RefersTo(a, id)
  }

  /** The bar of one course: its label and the number of enrollments referring to it. */
  function Bar(c: Course, anmeldungen: seq<Enrollment>): ChartEntry
  {
    ChartEntry(Label(c.titel), Count(anmeldungen, RefersToCourse(c.recordId)))
  }

  /** `courses.map(...)`: one bar per course, in the same order. */
  function ChartEntries(courses: seq<Course>, anmeldungen: seq<Enrollment>): (r: seq<ChartEntry>)
    ensures |r| == |courses|
    ensures forall i :: 0 <= i < |r| ==> r[i] == Bar(courses[i], anmeldungen)
  {
    if |courses| == 0 then []
    else
      var tail := ChartEntries(courses[1..], anmeldungen);
      var r := [Bar(courses[0], anmeldungen)] + tail;
      assert forall i :: 1 <= i < |r| ==> r[i] == tail[i - 1] && courses[1..][i - 1] == courses[i];
      r
  }

  /**
   * `kursChartData`: one bar for each of the first eight courses, in their
   * order, labelled by their title and counting the enrollments referring to them.
   */
  function KursChartData(kurse: seq<Course>, anmeldungen: seq<Enrollment>): (r: seq<ChartEntry>)
    ensures |r| == Min(8, |kurse|)
    ensures forall i :: 0 <= i < |r| ==>
              && r[i].name == Label(kurse[i].titel)
              && r[i].anmeldungen == Count(anmeldungen, RefersToCourse(kurse[i].recordId))
    ensures forall i :: 0 <= i < |r| ==> |r[i].name| <= 16 && r[i].anmeldungen <= |anmeldungen|
  {
    ChartEntries(Take(kurse, 8), anmeldungen)
  }

  /** The sum of the bars' counts. */
  function Total(entries: seq<ChartEntry>): nat
  {
    if |entries| == 0 then 0 else entries[0].anmeldungen + Total(entries[1..])
  }

  predicate DistinctIds(courses: seq<Course>)
  {
    forall i, j :: 0 <= i < j < |courses| ==> courses[i].recordId != courses[j].recordId
  }

  /** The reference of `a` names the id of one of `courses`. */
  predicate RefersToSome(a: Enrollment, courses: seq<Course>)
  {
    |courses| > 0 && (RefersTo(a, courses[0].recordId) || RefersToSome(a, courses[1..]))
  }

  function RefersToAnyOf(courses: seq<Course>): Enrollment -> bool
  {
    (a: Enrollment) => RefersToSome(a, courses)
  }

  lemma {:induction false} RefersToSomeWitness(a: Enrollment, courses: seq<Course>)
    requires RefersToSome(a, courses)
    ensures exists k :: 0 <= k < |courses| && RefersTo(a, courses[k].recordId)
  {
    if !RefersTo(a, courses[0].recordId) {
      RefersToSomeWitness(a, courses[1..]);
      var k :| 0 <= k < |courses[1..]| && RefersTo(a, courses[1..][k].recordId);
      assert RefersTo(a, courses[k + 1].recordId);
    }
  }

  /** With distinct ids, an enrollment referring to one of the later courses does not refer to the first. */
  lemma NotInTwoBars(a: Enrollment, courses: seq<Course>)
    requires DistinctIds(courses) && |courses| > 0 && RefersToSome(a, courses[1..])
    ensures !RefersTo(a, courses[0].recordId)
  {
    RefersToSomeWitness(a, courses[1..]);
    var k :| 0 <= k < |courses[1..]| && RefersTo(a, courses[1..][k].recordId);
    assert courses[1..][k] == courses[k + 1];
    assert courses[0].recordId != courses[k + 1].recordId;
  }

  /** When course ids are distinct, no enrollment is counted in two bars. */
  lemma {:induction false} ChartTotalCountsEachOnce(courses: seq<Course>, anmeldungen: seq<Enrollment>)
    requires DistinctIds(courses)
    ensures Total(ChartEntries(courses, anmeldungen)) == Count(anmeldungen, RefersToAnyOf(courses))
  {
    if |courses| > 0 {
      var first, rest := RefersToCourse(courses[0].recordId), courses[1..];
      var entries := ChartEntries(courses, anmeldungen);
      assert entries[1..] == ChartEntries(rest, anmeldungen);
      assert entries[0].anmeldungen == Count(anmeldungen, first);
      ChartTotalCountsEachOnce(rest, anmeldungen);
      forall i | 0 <= i < |anmeldungen|
        ensures !(first(anmeldungen[i]) && RefersToAnyOf(rest)(anmeldungen[i]))
        ensures RefersToAnyOf(courses)(anmeldungen[i]) == (first(anmeldungen[i]) || RefersToAnyOf(rest)(anmeldungen[i]))
      {
        if RefersToSome(anmeldungen[i], rest) {
          NotInTwoBars(anmeldungen[i], courses);
        }
      }
      CountDisjointUnion(anmeldungen, first, RefersToAnyOf(rest), RefersToAnyOf(courses));
    }
  }

  /** When course ids are distinct, the bars together count at most every enrollment once. */
  lemma ChartTotalBounded(kurse: seq<Course>, anmeldungen: seq<Enrollment>)
    requires DistinctIds(kurse)
    ensures Total(KursChartData(kurse, anmeldungen)) <= |anmeldungen|
  {
    ChartTotalCountsEachOnce(Take(kurse, 8), anmeldungen);
  }

  /**
   * For a non-empty reference and distinct course ids, the chart and the revenue
   * sums attribute an enrollment to the same course.
   */
  lemma ChartAndRevenueAgree(kurse: seq<Course>, a: Enrollment, i: nat)
    requires DistinctIds(kurse) && i < |kurse| && Truthy(a.kurs)
    ensures RefersTo(a, kurse[i].recordId) <==> ResolveCourse(kurse, a) == Some(kurse[i])
  {
    var id := LastSegment(a.kurs.value);
    if RefersTo(a, kurse[i].recordId) {
      assert HasId(id)(kurse[i]);
      assert forall j :: 0 <= j < i ==> !HasId(id)(kurse[j]);
    }
    if ResolveCourse(kurse, a) == Some(kurse[i]) {
      assert HasId(id)(kurse[i]);
    }
  }

  // ---------------------------------------------------------------------------
  // Upcoming courses
  // ---------------------------------------------------------------------------

  /** The course has a start date that is a valid date strictly after today. */
  predicate StartsAfter(c: Course, parse: DateParser, today: Day): (b: bool)
    ensures b <==> StartDay(c, parse).Some? && StartDay(c, parse).value > today
    ensures b ==> StartKey(c) == c.startdatum.value != ""
  {
    Truthy(c.startdatum) && parse(c.startdatum.value).Some? && parse(c.startdatum.value).value > today
  }

  function UpcomingOn(parse: DateParser, today: Day): Course -> bool
  {
    (c: Course) => StartsAfter(c, parse, today)
  }

  /** The sort key `startdatum ?? ''`. */
  function StartKey(c: Course): (k: string)
    ensures k == "" <==> !Truthy(c.startdatum)
    ensures !Truthy(c.startdatum) ==> forall s :: LexLe(k, s)
  {
    c.startdatum.GetOr("")
  }

  /**
   * `upcomingKurse`: at most five courses of `kurse` that start after today,
   * in ascending order of their start-date strings, and the earliest ones:
   * every upcoming course left out starts no earlier than any course listed.
   */
  function UpcomingKurse(kurse: seq<Course>, parse: DateParser, today: Day): (r: seq<Course>)
    ensures |r| <= 5
    ensures |r| == Min(5, Count(kurse, UpcomingOn(parse, today)))
    ensures forall c :: multiset(r)[c] <= multiset(kurse)[c]
    ensures forall c :: c in r ==> StartsAfter(c, parse, today)
    ensures SortedBy(r, StartKey)
    ensures forall c :: c in kurse && StartsAfter(c, parse, today) && c !in r ==>
              forall x :: x in r ==> LexLe(StartKey(x), StartKey(c))
  {
    var upcoming := Filter(kurse, UpcomingOn(parse, today));
    var sorted := SortBy(upcoming, StartKey);
    var r := Take(sorted, 5);
    SortedPrefix(sorted, StartKey, r);
    assert forall c :: c in kurse && StartsAfter(c, parse, today) ==> c in sorted by {
      forall c | c in kurse && StartsAfter(c, parse, today) ensures c in sorted {
        assert multiset(upcoming)[c] == multiset(kurse)[c];
        assert c in multiset(sorted);
      }
    }
    assert forall c :: c in r ==> c in upcoming by {
      forall c | c in r ensures c in upcoming {
        assert c in multiset(sorted);
      }
    }
    r
  }

  /** The day a course starts, or None when it has no valid start date. */
  function StartDay(c: Course, parse: DateParser): Option<Day>
  {
    if Truthy(c.startdatum) then parse(c.startdatum.value) else None
  }

  /**
   * The start-date strings of `kurse` compare as their days do, as uniform ISO
   * `YYYY-MM-DD` strings do.
   */
  predicate ChronologicalKeys(kurse: seq<Course>, parse: DateParser)
  {
    forall c, d ::
      && c in kurse && d in kurse
      && StartDay(c, parse).Some? && StartDay(d, parse).Some?
      && LexLe(StartKey(c), StartKey(d))
      ==> StartDay(c, parse).value <= StartDay(d, parse).value
  }

  /** A list of courses of `kurse` sorted by start-date string is sorted by start day. */
  lemma SortedByKeyIsSortedByDay(r: seq<Course>, kurse: seq<Course>, parse: DateParser)
    requires ChronologicalKeys(kurse, parse) && SortedBy(r, StartKey)
    requires forall c :: c in r ==> c in kurse && StartDay(c, parse).Some?
    ensures forall i, j :: 0 <= i < j < |r| ==>
              && StartDay(r[i], parse).Some? && StartDay(r[j], parse).Some?
              && StartDay(r[i], parse).value <= StartDay(r[j], parse).value
  {
    forall i, j | 0 <= i < j < |r|
      ensures StartDay(r[i], parse).Some? && StartDay(r[j], parse).Some?
      ensures StartDay(r[i], parse).value <= StartDay(r[j], parse).value
    {
      var c, d := r[i], r[j];
      assert c in r && d in r;
      assert LexLe(StartKey(c), StartKey(d));
    }
  }

  /** When the start-date strings compare like their days, the upcoming list is in date order. */
  lemma UpcomingInDateOrder(kurse: seq<Course>, parse: DateParser, today: Day)
    requires ChronologicalKeys(kurse, parse)
    ensures var r := UpcomingKurse(kurse, parse, today);
            forall i, j :: 0 <= i < j < |r| ==>
              && StartDay(r[i], parse).Some? && StartDay(r[j], parse).Some?
              && StartDay(r[i], parse).value <= StartDay(r[j], parse).value
  {
    var r := UpcomingKurse(kurse, parse, today);
    forall c | c in r ensures c in kurse && StartDay(c, parse).Some? {
      assert multiset(r)[c] > 0;
      assert StartsAfter(c, parse, today);
    }
    SortedByKeyIsSortedByDay(r, kurse, parse);
  }

  /** A course running today is not among the upcoming ones. */
  lemma ActiveIsNotUpcoming(c: Course, parse: DateParser, today: Day)
    requires IsActive(c, parse, today)
    ensures !StartsAfter(c, parse, today)
  {
  }

  // ---------------------------------------------------------------------------
  // A worked example
  // ---------------------------------------------------------------------------

  lemma OutstandingIsDifference(kurse: seq<Course>, anmeldungen: seq<Enrollment>)
    ensures OutstandingRevenue(kurse, anmeldungen) == GesamtEinnahmen(kurse, anmeldungen) - BezahltEinnahmen(kurse, anmeldungen)
  {
  }

  lemma SumsOfThree(kurse: seq<Course>, x: Enrollment, y: Enrollment, z: Enrollment)
    ensures GesamtEinnahmen(kurse, [x, y, z]) == Price(kurse, x) + Price(kurse, y) + Price(kurse, z)
    ensures BezahltEinnahmen(kurse, [x, y, z]) == PaidPrice(kurse, x) + PaidPrice(kurse, y) + PaidPrice(kurse, z)
  {
    assert [x, y, z][1..] == [y, z] && [y, z][1..] == [z] && [z][1..] == [];
    assert GesamtEinnahmen(kurse, [z]) == Price(kurse, z);
    assert GesamtEinnahmen(kurse, [y, z]) == Price(kurse, y) + Price(kurse, z);
    assert BezahltEinnahmen(kurse, [z]) == PaidPrice(kurse, z);
    assert BezahltEinnahmen(kurse, [y, z]) == PaidPrice(kurse, y) + PaidPrice(kurse, z);
  }

  /**
   * Three courses priced 100, 200 and 50 with distinct ids; no enrollment in the
   * first, two in the second (one paid) and one paid enrollment in the third,
   * all referring to their course as `<prefix>/<id>`.
   */
  lemma RevenueExample(prefix: string, a: Course, b: Course, c: Course)
    requires '/' !in a.recordId && '/' !in b.recordId && '/' !in c.recordId
    requires a.recordId != b.recordId && a.recordId != c.recordId && b.recordId != c.recordId
    requires a.preis == Some(100) && b.preis == Some(200) && c.preis == Some(50)
    ensures var kurse := [a, b, c];
            var anmeldungen := [
              Enrollment(Some(prefix + "/" + b.recordId), Some(true)),
              Enrollment(Some(prefix + "/" + b.recordId), Some(false)),
              Enrollment(Some(prefix + "/" + c.recordId), Some(true))];
            && GesamtEinnahmen(kurse, anmeldungen) == 450
            && BezahltEinnahmen(kurse, anmeldungen) == 250
            && OutstandingRevenue(kurse, anmeldungen) == 200
  {
    var kurse := [a, b, c];
    var paidB := Enrollment(Some(prefix + "/" + b.recordId), Some(true));
    var openB := Enrollment(Some(prefix + "/" + b.recordId), Some(false));
    var paidC := Enrollment(Some(prefix + "/" + c.recordId), Some(true));
    PathReferencePrice(kurse, paidB, prefix, b.recordId, 1);
    PathReferencePrice(kurse, openB, prefix, b.recordId, 1);
    PathReferencePrice(kurse, paidC, prefix, c.recordId, 2);
    assert Price(kurse, paidB) == 200 && Price(kurse, openB) == 200 && Price(kurse, paidC) == 50;
    assert PaidPrice(kurse, paidB) == 200 && PaidPrice(kurse, openB) == 0 && PaidPrice(kurse, paidC) == 50;
    SumsOfThree(kurse, paidB, openB, paidC);
    OutstandingIsDifference(kurse, [paidB, openB, paidC]);
  }

  lemma SumsOfTwo(kurse: seq<Course>, x: Enrollment, y: Enrollment)
    ensures GesamtEinnahmen(kurse, [x, y]) == Price(kurse, x) + Price(kurse, y)
    ensures BezahltEinnahmen(kurse, [x, y]) == PaidPrice(kurse, x) + PaidPrice(kurse, y)
  {
    assert [x, y][1..] == [y] && [y][1..] == [];
    assert GesamtEinnahmen(kurse, [y]) == Price(kurse, y);
    assert BezahltEinnahmen(kurse, [y]) == PaidPrice(kurse, y);
  }

  /**
   * Nothing in the sums rules out a negative price. A course priced -10 with
   * one unpaid enrollment and a course priced 10 with one paid enrollment give
   * 10 collected out of a total of 0, and -10 outstanding.
   */
  lemma NegativePriceBreaksBound(prefix: string, a: Course, b: Course)
    requires '/' !in a.recordId && '/' !in b.recordId && a.recordId != b.recordId
    requires a.preis == Some(-10) && b.preis == Some(10)
    ensures !NonNegativePrices([a, b])
    ensures var kurse := [a, b];
            var anmeldungen := [
              Enrollment(Some(prefix + "/" + a.recordId), Some(false)),
              Enrollment(Some(prefix + "/" + b.recordId), Some(true))];
            && GesamtEinnahmen(kurse, anmeldungen) == 0
            && BezahltEinnahmen(kurse, anmeldungen) == 10
            && BezahltEinnahmen(kurse, anmeldungen) > GesamtEinnahmen(kurse, anmeldungen)
            && OutstandingRevenue(kurse, anmeldungen) == -10
  {
    var kurse := [a, b];
    var openA := Enrollment(Some(prefix + "/" + a.recordId), Some(false));
    var paidB := Enrollment(Some(prefix + "/" + b.recordId), Some(true));
    assert a in kurse;
    PathReferencePrice(kurse, openA, prefix, a.recordId, 0);
    PathReferencePrice(kurse, paidB, prefix, b.recordId, 1);
    assert Price(kurse, openA) == -10 && Price(kurse, paidB) == 10;
    assert PaidPrice(kurse, openA) == 0 && PaidPrice(kurse, paidB) == 10;
    SumsOfTwo(kurse, openA, paidB);
    OutstandingIsDifference(kurse, [openA, paidB]);
  }

  /** Two paid enrollments and one unpaid: two are counted as paid, one as pending. */
  lemma PaymentCountExample(x: Enrollment, y: Enrollment, z: Enrollment)
    requires x.bezahlt == Some(true) && y.bezahlt == Some(false) && z.bezahlt == Some(true)
    ensures BezahltCount([x, y, z]) == 2 && PendingCount([x, y, z]) == 1
  {
    assert [x, y, z][1..] == [y, z] && [y, z][1..] == [z] && [z][1..] == [];
    assert Filter([z], IsPaid) == [z];
    assert Filter([y, z], IsPaid) == [z];
    assert Filter([x, y, z], IsPaid) == [x, z];
  }
}
