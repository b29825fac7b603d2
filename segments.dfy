/**
 * `groupDocumentsByTimeSegments`, the dense bucketing of the horizontal
 * timeline: every year, month, Monday-start week or day from the earliest to the
 * latest document is listed oldest first, empty ones included, each with the
 * documents dated inside it.
 *
 * The date-fns interval helpers (`eachMonthOfInterval`, `eachWeekOfInterval`,
 * `eachDayOfInterval`) become `EachPeriod` over a `Span`; the year list is built
 * as the source builds it, from the month list.
 */
module Segments {
  import opened Wrappers
  import opened Calendar
  import opened Formatting
  import opened Buckets
  import opened Documents

  datatype Zoom = YearZoom | MonthZoom | WeekZoom | DayZoom

  /** The segment code asks date-fns for Monday weeks. */
  const SegmentWeekStart: Weekday := 1

  function ZoomSpan(zoom: Zoom): Span {
    match zoom
    case YearZoom => Years
    case MonthZoom => Months
    case WeekZoom => Weeks(SegmentWeekStart)
    case DayZoom => Days
  }

  datatype Segment = Segment(date: Date, period: string, displayName: string, documents: seq<Document>, count: nat)

  // ---------------------------------------------------------------- enumerating periods

  /** The period starts from `s` on, one after the other, up to the last one not after `last`. */
  function StartsFrom(span: Span, s: Date, last: Date): seq<Date>
    requires IsPeriodStart(span, s)
    decreases DayNumber(last) - DayNumber(s)
  {
    if DayNumber(last) < DayNumber(s) then []
    else
      NextPeriodFacts(span, s);
      [s] + StartsFrom(span, NextPeriod(span, s), last)
  }

  /**
   * `eachMonthOfInterval`, `eachWeekOfInterval` and `eachDayOfInterval`: the
   * starts of the periods from the one containing `a` to the one containing `b`;
   * newest first when `a` is after `b`.
   */
  function EachPeriod(span: Span, a: Date, b: Date): seq<Date> {
    if DayNumber(a) <= DayNumber(b) then
      PeriodStartFacts(span, a);
      StartsFrom(span, PeriodStart(span, a), b)
    else
      PeriodStartFacts(span, b);
      Reverse(StartsFrom(span, PeriodStart(span, b), a))
  }

  function YearStartFn(): Date -> Date {
    (d: Date) => StartOfYear(d)
  }

  /**
   * The segment starts. Years are the month starts mapped to their year start,
   * each kept at its first occurrence (`findIndex(...) === index`).
   */
  function SegmentStarts(zoom: Zoom, lo: Date, hi: Date): seq<Date> {
    match zoom
    case YearZoom => FirstKeys(EachPeriod(Months, lo, hi), YearStartFn())
    case MonthZoom => EachPeriod(Months, lo, hi)
    case WeekZoom => EachPeriod(Weeks(SegmentWeekStart), lo, hi)
    case DayZoom => EachPeriod(Days, lo, hi)
  }

  // ---------------------------------------------------------------- segments

  /** 'yyyy', 'yyyy-MM', 'yyyy-MM-dd' of the segment start. */
  function SegmentKey(zoom: Zoom, s: Date): string {
    match zoom
    case YearZoom => YearKey(s)
    case MonthZoom => MonthKey(s)
    case WeekZoom => DayKey(s)
    case DayZoom => DayKey(s)
  }

  /** 'yyyy', 'MMM yyyy', 'MMM dd', 'MMM dd' of the segment start. */
  function SegmentName(zoom: Zoom, s: Date): string {
    match zoom
    case YearZoom => YearText(s.year)
    case MonthZoom => ShortMonthYear(s)
    case WeekZoom => MonthDay(s)
    case DayZoom => MonthDay(s)
  }

  /** "dated from `s` to the end of `e`". */
  function WithinFn(s: Date, e: Date): Document -> bool {
    (doc: Document) => DayNumber(s) <= DayNumber(doc.date) <= DayNumber(e)
  }

  function SegmentAt(docs: seq<Document>, zoom: Zoom, s: Date): Segment {
    var inside := Filter(docs, WithinFn(s, PeriodEnd(ZoomSpan(zoom), s)));
    Segment(s, SegmentKey(zoom, s), SegmentName(zoom, s), inside, |inside|)
  }

  /** The earliest document date, `docDates[0]` after the ascending sort. */
  function EarliestDate(docs: seq<Document>): (r: Date)
    requires docs != []
    ensures exists i :: 0 <= i < |docs| && docs[i].date == r
    ensures forall i :: 0 <= i < |docs| ==> DayNumber(r) <= DayNumber(docs[i].date)
  {
    if |docs| == 1 then docs[0].date
    else
      var m := EarliestDate(docs[1..]);
      assert forall i :: 1 <= i < |docs| ==> docs[i] == docs[1..][i - 1];
      if DayNumber(docs[0].date) <= DayNumber(m) then docs[0].date else m
  }

  /** The latest document date, the last of `docDates` after the ascending sort. */
  function LatestDate(docs: seq<Document>): (r: Date)
    requires docs != []
    ensures exists i :: 0 <= i < |docs| && docs[i].date == r
    ensures forall i :: 0 <= i < |docs| ==> DayNumber(docs[i].date) <= DayNumber(r)
  {
    if |docs| == 1 then docs[0].date
    else
      var m := LatestDate(docs[1..]);
      assert forall i :: 1 <= i < |docs| ==> docs[i] == docs[1..][i - 1];
      if DayNumber(m) <= DayNumber(docs[0].date) then docs[0].date else m
  }

  function RangeStart(docs: seq<Document>, startDate: Option<Date>): Date
    requires docs != []
  {
    if startDate.Some? then startDate.value else EarliestDate(docs)
  }

  function RangeEnd(docs: seq<Document>, endDate: Option<Date>): Date
    requires docs != []
  {
    if endDate.Some? then endDate.value else LatestDate(docs)
  }

  /** `groupDocumentsByTimeSegments(documents, zoom, startDate, endDate)` */
  function SegmentsByTime(docs: seq<Document>, zoom: Zoom, startDate: Option<Date>, endDate: Option<Date>): seq<Segment> {
    if docs == [] then []
    else
      var starts := SegmentStarts(zoom, RangeStart(docs, startDate), RangeEnd(docs, endDate));
      seq(|starts|, i requires 0 <= i < |starts| => SegmentAt(docs, zoom, starts[i]))
  }

  function SegmentDates(segs: seq<Segment>): (r: seq<Date>)
    ensures |r| == |segs| && forall i :: 0 <= i < |segs| ==> r[i] == segs[i].date
  {
    seq(|segs|, i requires 0 <= i < |segs| => segs[i].date)
  }

  // ---------------------------------------------------------------- the enumeration

  /** Each start in `r` is followed by the start of the next period. */
  predicate Consecutive(span: Span, r: seq<Date>) {
    forall k :: 0 <= k < |r| - 1 ==> r[k + 1] == NextPeriod(span, r[k])
  }

  /** The enumeration is empty exactly when `s` is after `last`, and otherwise starts at `s`. */
  lemma StartsFromFirst(span: Span, s: Date, last: Date)
    requires IsPeriodStart(span, s)
    ensures DayNumber(s) <= DayNumber(last) <==> StartsFrom(span, s, last) != []
    ensures StartsFrom(span, s, last) != [] ==> StartsFrom(span, s, last)[0] == s
  {
  }

  /** Every start listed is a period start from `s` to `last`. */
  lemma {:induction false} StartsFromBounds(span: Span, s: Date, last: Date)
    requires IsPeriodStart(span, s)
    ensures forall t :: t in StartsFrom(span, s, last) ==>
              IsPeriodStart(span, t) && DayNumber(s) <= DayNumber(t) <= DayNumber(last)
    decreases DayNumber(last) - DayNumber(s)
  {
    if DayNumber(s) <= DayNumber(last) {
      NextPeriodFacts(span, s);
      StartsFromBounds(span, NextPeriod(span, s), last);
    }
  }

  /** Each listed start is followed by the start of the next period. */
  lemma {:induction false} StartsFromNext(span: Span, s: Date, last: Date)
    requires IsPeriodStart(span, s)
    ensures Consecutive(span, StartsFrom(span, s, last))
    decreases DayNumber(last) - DayNumber(s)
  {
    if DayNumber(s) <= DayNumber(last) {
      StartsFromUnfold(span, s, last);
      var n := NextPeriod(span, s);
      StartsFromNext(span, n, last);
      StartsFromFirst(span, n, last);
      ConsConsecutive(span, s, StartsFrom(span, n, last));
    }
  }

  /** A period start put in front of consecutive periods beginning with its next one keeps them consecutive. */
  lemma ConsConsecutive(span: Span, s: Date, t: seq<Date>)
    requires Consecutive(span, t)
    requires t != [] ==> t[0] == NextPeriod(span, s)
    ensures Consecutive(span, [s] + t)
  {
    var r := [s] + t;
    forall i | 0 <= i < |r| - 1
      ensures r[i + 1] == NextPeriod(span, r[i])
    {
      if i > 0 {
        assert r[i] == t[i - 1] && r[i + 1] == t[i];
      }
    }
  }

  /** The period after the final listed one begins after `last`: nothing is left out at the end. */
  lemma {:induction false} StartsFromLast(span: Span, s: Date, last: Date)
    requires IsPeriodStart(span, s)
    ensures var r := StartsFrom(span, s, last);
      r != [] ==> DayNumber(last) < DayNumber(NextPeriod(span, r[|r| - 1]))
    decreases DayNumber(last) - DayNumber(s)
  {
    if DayNumber(s) <= DayNumber(last) {
      StartsFromUnfold(span, s, last);
      var n := NextPeriod(span, s);
      StartsFromLast(span, n, last);
      StartsFromFirst(span, n, last);
      LastOfStarts(span, last, s, StartsFrom(span, n, last));
    } else {
      StartsFromFirst(span, s, last);
    }
  }

  lemma LastOfStarts(span: Span, last: Date, s: Date, t: seq<Date>)
    requires t != [] ==> DayNumber(last) < DayNumber(NextPeriod(span, t[|t| - 1]))
    requires t == [] ==> DayNumber(last) < DayNumber(NextPeriod(span, s))
    ensures DayNumber(last) < DayNumber(NextPeriod(span, ([s] + t)[|[s] + t| - 1]))
  {
    if t != [] {
      assert ([s] + t)[|[s] + t| - 1] == t[|t| - 1];
    }
  }

  /** One step of the enumeration: `s` followed by the enumeration from the next period. */
  lemma StartsFromUnfold(span: Span, s: Date, last: Date)
    requires IsPeriodStart(span, s) && DayNumber(s) <= DayNumber(last)
    ensures IsPeriodStart(span, NextPeriod(span, s)) && DayNumber(s) < DayNumber(NextPeriod(span, s))
    ensures StartsFrom(span, s, last) == [s] + StartsFrom(span, NextPeriod(span, s), last)
  {
    NextPeriodFacts(span, s);
  }

  /** The enumeration is strictly ascending. */
  lemma StartsFromAscending(span: Span, s: Date, last: Date)
    requires IsPeriodStart(span, s)
    ensures Ascending(StartsFrom(span, s, last))
  {
    var r := StartsFrom(span, s, last);
    StartsFromBounds(span, s, last);
    StartsFromNext(span, s, last);
    ConsecutiveIncreases(span, r);
    var ns := seq(|r|, k requires 0 <= k < |r| => DayNumber(r[k]));
    forall i, j | 0 <= i < j < |r|
      ensures DayNumber(r[i]) < DayNumber(r[j])
    {
      ChainIncreases(ns, i, j);
    }
  }

  /** Each start in a consecutive list comes before the next one. */
  lemma ConsecutiveIncreases(span: Span, r: seq<Date>)
    requires forall t :: t in r ==> IsPeriodStart(span, t)
    requires Consecutive(span, r)
    ensures forall k :: 0 <= k < |r| - 1 ==> DayNumber(r[k]) < DayNumber(r[k + 1])
  {
    forall k | 0 <= k < |r| - 1
      ensures DayNumber(r[k]) < DayNumber(r[k + 1])
    {
      assert r[k] in r;
      NextPeriodFacts(span, r[k]);
    }
  }

  /** A sequence whose every step goes up is strictly ascending. */
  lemma {:induction false} ChainIncreases(ns: seq<int>, i: nat, j: nat)
    requires i < j < |ns|
    requires forall k :: 0 <= k < |ns| - 1 ==> ns[k] < ns[k + 1]
    ensures ns[i] < ns[j]
    decreases j - i
  {
    if i < j - 1 {
      ChainIncreases(ns, i, j - 1);
    }
  }

  /** Every period start from `s` to `last` is listed. */
  lemma {:induction false} StartsFromHas(span: Span, s: Date, last: Date, t: Date)
    requires IsPeriodStart(span, s) && IsPeriodStart(span, t)
    requires DayNumber(s) <= DayNumber(t) <= DayNumber(last)
    ensures t in StartsFrom(span, s, last)
    decreases DayNumber(last) - DayNumber(s)
  {
    NextPeriodFacts(span, s);
    var n := NextPeriod(span, s);
    assert StartsFrom(span, s, last) == [s] + StartsFrom(span, n, last);
    if t != s {
      DayNumberOrder(s, t);
      LaterStartIsLater(span, s, t);
      StartsFromHas(span, n, last, t);
    }
  }

  /** A period start after `s` is not before the start of the period after `s`. */
  lemma LaterStartIsLater(span: Span, s: Date, t: Date)
    requires IsPeriodStart(span, s) && IsPeriodStart(span, t)
    requires DayNumber(s) < DayNumber(t)
    ensures DayNumber(NextPeriod(span, s)) <= DayNumber(t)
  {
    NextPeriodFacts(span, s);
    InPeriod(span, s, t);
    PeriodStartOf(span, t);
  }

  /** The enumeration holds exactly the period starts from `s` to `last`. */
  lemma StartsFromMembers(span: Span, s: Date, last: Date, t: Date)
    requires IsPeriodStart(span, s)
    ensures t in StartsFrom(span, s, last) <==> IsPeriodStart(span, t) && DayNumber(s) <= DayNumber(t) <= DayNumber(last)
  {
    StartsFromBounds(span, s, last);
    if IsPeriodStart(span, t) && DayNumber(s) <= DayNumber(t) <= DayNumber(last) {
      StartsFromHas(span, s, last, t);
    }
  }

  // ---------------------------------------------------------------- the year list

  /** First-occurrence keys of a list whose keys never go back in time come out ascending, ending in the last key. */
  lemma FirstKeysAscending(xs: seq<Date>, key: Date -> Date)
    requires forall i :: 0 < i < |xs| ==> DayNumber(key(xs[i - 1])) <= DayNumber(key(xs[i]))
    ensures Ascending(FirstKeys(xs, key))
    ensures xs != [] ==> FirstKeys(xs, key) != [] && FirstKeys(xs, key)[|FirstKeys(xs, key)| - 1] == key(xs[|xs| - 1])
  {
    forall a: Date, b: Date | DayNumber(a) == DayNumber(b)
      ensures a == b
    {
      DayNumberOrder(a, b);
    }
    FirstKeysRising(xs, key, DayNumber);
  }

  /** A day between the start of the month of `lo` and `hi` has a year between theirs. */
  lemma YearOfMonthInRange(lo: Date, hi: Date, m: Date)
    requires DayNumber(StartOfMonth(lo)) <= DayNumber(m) <= DayNumber(hi)
    ensures lo.year <= m.year <= hi.year
  {
    DayNumberOrder(m, StartOfMonth(lo));
    DayNumberOrder(hi, m);
  }

  /** Every deduplicated year start is a year start of the range. */
  lemma YearStartsFromMonthsOnly(lo: Date, hi: Date, t: Date)
    requires DayNumber(lo) <= DayNumber(hi)
    requires t in FirstKeys(EachPeriod(Months, lo, hi), YearStartFn())
    ensures t in StartsFrom(Years, StartOfYear(lo), hi)
  {
    var months := EachPeriod(Months, lo, hi);
    var key := YearStartFn();
    FirstKeysOccur(months, key);
    var i :| 0 <= i < |months| && key(months[i]) == t;
    StartsFromMembers(Months, StartOfMonth(lo), hi, months[i]);
    YearOfMonthInRange(lo, hi, months[i]);
    DayNumberOrder(StartOfYear(lo), t);
    DayNumberOrder(t, hi);
    StartsFromMembers(Years, StartOfYear(lo), hi, t);
  }

  /** Every year start of the range is among the deduplicated year starts. */
  lemma YearStartsFromMonthsAll(lo: Date, hi: Date, t: Date)
    requires DayNumber(lo) <= DayNumber(hi)
    requires t in StartsFrom(Years, StartOfYear(lo), hi)
    ensures t in FirstKeys(EachPeriod(Months, lo, hi), YearStartFn())
  {
    var months := EachPeriod(Months, lo, hi);
    var i := MonthOpeningYear(lo, hi, t);
    FirstKeysCover(months, YearStartFn());
  }

  /** A year start of the range has a month of the range in it: its first, or the range's first. */
  lemma MonthOpeningYear(lo: Date, hi: Date, t: Date) returns (i: nat)
    requires DayNumber(lo) <= DayNumber(hi)
    requires t in StartsFrom(Years, StartOfYear(lo), hi)
    ensures i < |EachPeriod(Months, lo, hi)| && YearStartFn()(EachPeriod(Months, lo, hi)[i]) == t
  {
    var months := EachPeriod(Months, lo, hi);
    StartsFromMembers(Years, StartOfYear(lo), hi, t);
    DayNumberOrder(StartOfYear(lo), t);
    DayNumberOrder(t, hi);
    var m: Date := if t.year == lo.year then StartOfMonth(lo) else YMD(t.year, 1, 1);
    DayNumberOrder(StartOfMonth(lo), m);
    DayNumberOrder(m, hi);
    DayNumberOrder(lo, hi);
    StartsFromMembers(Months, StartOfMonth(lo), hi, m);
    i :| 0 <= i < |months| && months[i] == m;
  }


  /** The deduplicated year starts of the month list are the years of the range, one each, ascending. */
  lemma YearStartsFromMonths(lo: Date, hi: Date)
    requires DayNumber(lo) <= DayNumber(hi)
    ensures FirstKeys(EachPeriod(Months, lo, hi), YearStartFn()) == StartsFrom(Years, StartOfYear(lo), hi)
  {
    var months := EachPeriod(Months, lo, hi);
    StartsFromAscending(Months, StartOfMonth(lo), hi);
    forall i | 0 < i < |months|
      ensures DayNumber(YearStartFn()(months[i - 1])) <= DayNumber(YearStartFn()(months[i]))
    {
      DayNumberOrder(months[i], months[i - 1]);
      DayNumberOrder(StartOfYear(months[i]), StartOfYear(months[i - 1]));
    }
    FirstKeysAscending(months, YearStartFn());
    StartsFromAscending(Years, StartOfYear(lo), hi);
    forall t
      ensures t in FirstKeys(months, YearStartFn()) <==> t in StartsFrom(Years, StartOfYear(lo), hi)
    {
      if t in FirstKeys(months, YearStartFn()) {
        YearStartsFromMonthsOnly(lo, hi, t);
      }
      if t in StartsFrom(Years, StartOfYear(lo), hi) {
        YearStartsFromMonthsAll(lo, hi, t);
      }
    }
    SameAscending(FirstKeys(months, YearStartFn()), StartsFrom(Years, StartOfYear(lo), hi));
  }

  /** For a range in order, the segment starts are the period starts from the range start's period to the range end. */
  lemma SegmentStartsInOrder(zoom: Zoom, lo: Date, hi: Date)
    requires DayNumber(lo) <= DayNumber(hi)
    ensures IsPeriodStart(ZoomSpan(zoom), PeriodStart(ZoomSpan(zoom), lo))
    ensures SegmentStarts(zoom, lo, hi) == StartsFrom(ZoomSpan(zoom), PeriodStart(ZoomSpan(zoom), lo), hi)
  {
    PeriodStartFacts(ZoomSpan(zoom), lo);
    if zoom == YearZoom {
      YearStartsFromMonths(lo, hi);
    }
  }

  // ---------------------------------------------------------------- segments

  /** A segment holds exactly the documents of its period, in input order, and counts them. */
  lemma SegmentAtMeaning(docs: seq<Document>, zoom: Zoom, s: Date)
    requires IsPeriodStart(ZoomSpan(zoom), s)
    ensures SegmentAt(docs, zoom, s).count == |SegmentAt(docs, zoom, s).documents|
    ensures forall x :: x in SegmentAt(docs, zoom, s).documents <==>
              x in docs && PeriodStart(ZoomSpan(zoom), x.date) == s
  {
    var span := ZoomSpan(zoom);
    FilterMeaning(docs, WithinFn(s, PeriodEnd(span, s)));
    forall x | x in docs
      ensures WithinFn(s, PeriodEnd(span, s))(x) <==> PeriodStart(span, x.date) == s
    {
      InPeriod(span, s, x.date);
    }
  }

  /** Segment keys tell different segment starts apart. */
  lemma SegmentKeyInjective(zoom: Zoom, s: Date, t: Date)
    requires IsPeriodStart(ZoomSpan(zoom), s) && IsPeriodStart(ZoomSpan(zoom), t)
    requires SegmentKey(zoom, s) == SegmentKey(zoom, t)
    ensures s == t
  {
    match zoom
    case YearZoom => YearKeyInjective(s, t);
    case MonthZoom => MonthKeyInjective(s, t);
    case WeekZoom => DayKeyInjective(s, t);
    case DayZoom => DayKeyInjective(s, t);
  }

  /** Without documents there are no segments. */
  lemma NoDocumentsNoSegments(zoom: Zoom, startDate: Option<Date>, endDate: Option<Date>)
    ensures SegmentsByTime([], zoom, startDate, endDate) == []
  {
  }

  /** The segment list, as the list of segment starts. */
  lemma SegmentDatesInOrder(docs: seq<Document>, zoom: Zoom, startDate: Option<Date>, endDate: Option<Date>)
    requires docs != []
    requires DayNumber(RangeStart(docs, startDate)) <= DayNumber(RangeEnd(docs, endDate))
    ensures IsPeriodStart(ZoomSpan(zoom), PeriodStart(ZoomSpan(zoom), RangeStart(docs, startDate)))
    ensures SegmentDates(SegmentsByTime(docs, zoom, startDate, endDate))
         == StartsFrom(ZoomSpan(zoom), PeriodStart(ZoomSpan(zoom), RangeStart(docs, startDate)), RangeEnd(docs, endDate))
  {
    SegmentStartsInOrder(zoom, RangeStart(docs, startDate), RangeEnd(docs, endDate));
  }

  /** The last period start listed up to `hi` is the period start of `hi`. */
  lemma StartsFromEndsAt(span: Span, s: Date, hi: Date)
    requires IsPeriodStart(span, s) && DayNumber(s) <= DayNumber(hi)
    ensures StartsFrom(span, s, hi) != []
    ensures StartsFrom(span, s, hi)[|StartsFrom(span, s, hi)| - 1] == PeriodStart(span, hi)
  {
    var r := StartsFrom(span, s, hi);
    StartsFromFirst(span, s, hi);
    StartsFromLast(span, s, hi);
    StartsFromBounds(span, s, hi);
    assert r[|r| - 1] in r;
    LastStartCovers(span, r[|r| - 1], hi);
  }

  /** A day between a period start and the next period start lies in that period. */
  lemma LastStartCovers(span: Span, z: Date, hi: Date)
    requires IsPeriodStart(span, z) && DayNumber(z) <= DayNumber(hi) < DayNumber(NextPeriod(span, z))
    ensures PeriodStart(span, hi) == z
  {
    NextPeriodFacts(span, z);
    InPeriod(span, z, hi);
  }


  /**
   * For a range in order (always so without explicit bounds) the segments run
   * from the period of the range start to the period of the range end, oldest
   * first, each followed by the next period, empty ones included.
   */
  lemma SegmentsSpanRange(docs: seq<Document>, zoom: Zoom, startDate: Option<Date>, endDate: Option<Date>)
    requires docs != []
    requires DayNumber(RangeStart(docs, startDate)) <= DayNumber(RangeEnd(docs, endDate))
    ensures var r := SegmentsByTime(docs, zoom, startDate, endDate);
      r != []
      && r[0].date == PeriodStart(ZoomSpan(zoom), RangeStart(docs, startDate))
      && r[|r| - 1].date == PeriodStart(ZoomSpan(zoom), RangeEnd(docs, endDate))
      && (forall i :: 0 <= i < |r| - 1 ==> r[i + 1].date == NextPeriod(ZoomSpan(zoom), r[i].date))
      && Ascending(SegmentDates(r))
  {
    var lo, hi := RangeStart(docs, startDate), RangeEnd(docs, endDate);
    var span := ZoomSpan(zoom);
    var r := SegmentsByTime(docs, zoom, startDate, endDate);
    SegmentDatesInOrder(docs, zoom, startDate, endDate);
    PeriodStartFacts(span, lo);
    StartsFromShape(span, PeriodStart(span, lo), hi);
    ConsecutiveDates(span, r);
  }

  /** The period starts listed from `s` up to `hi`: `s` first, the period of `hi` last, each the next of the one before, ascending. */
  lemma StartsFromShape(span: Span, s: Date, hi: Date)
    requires IsPeriodStart(span, s) && DayNumber(s) <= DayNumber(hi)
    ensures var starts := StartsFrom(span, s, hi);
      && starts != [] && starts[0] == s && starts[|starts| - 1] == PeriodStart(span, hi)
      && Consecutive(span, starts) && Ascending(starts)
  {
    StartsFromFirst(span, s, hi);
    StartsFromEndsAt(span, s, hi);
    StartsFromNext(span, s, hi);
    StartsFromAscending(span, s, hi);
  }

  /** Segments whose dates are consecutive periods are each followed by the next period. */
  lemma ConsecutiveDates(span: Span, r: seq<Segment>)
    requires Consecutive(span, SegmentDates(r))
    ensures forall i :: 0 <= i < |r| - 1 ==> r[i + 1].date == NextPeriod(span, r[i].date)
  {
    var ds := SegmentDates(r);
    forall i | 0 <= i < |r| - 1
      ensures r[i + 1].date == NextPeriod(span, r[i].date)
    {
      assert ds[i] == r[i].date && ds[i + 1] == r[i + 1].date;
    }
  }

  /** For a range in order, each segment holds exactly the documents of its period and counts them. */
  lemma SegmentsHoldTheirPeriods(docs: seq<Document>, zoom: Zoom, startDate: Option<Date>, endDate: Option<Date>)
    requires docs != []
    requires DayNumber(RangeStart(docs, startDate)) <= DayNumber(RangeEnd(docs, endDate))
    ensures var r := SegmentsByTime(docs, zoom, startDate, endDate);
      forall i :: 0 <= i < |r| ==>
        r[i].count == |r[i].documents|
        && (forall x :: x in r[i].documents <==> x in docs && PeriodStart(ZoomSpan(zoom), x.date) == r[i].date)
  {
    var lo, hi := RangeStart(docs, startDate), RangeEnd(docs, endDate);
    var span := ZoomSpan(zoom);
    var r := SegmentsByTime(docs, zoom, startDate, endDate);
    SegmentDatesInOrder(docs, zoom, startDate, endDate);
    var starts := StartsFrom(span, PeriodStart(span, lo), hi);
    StartsFromBounds(span, PeriodStart(span, lo), hi);
    forall i | 0 <= i < |r|
      ensures r[i].count == |r[i].documents|
              && (forall x :: x in r[i].documents <==> x in docs && PeriodStart(span, x.date) == r[i].date)
    {
      assert starts[i] in starts;
      assert r[i] == SegmentAt(docs, zoom, starts[i]);
      SegmentAtMeaning(docs, zoom, starts[i]);
    }
  }

  /** For a range in order, no two segments share a period key. */
  lemma SegmentKeysDistinct(docs: seq<Document>, zoom: Zoom, startDate: Option<Date>, endDate: Option<Date>)
    requires docs != []
    requires DayNumber(RangeStart(docs, startDate)) <= DayNumber(RangeEnd(docs, endDate))
    ensures var r := SegmentsByTime(docs, zoom, startDate, endDate);
      forall i, j :: 0 <= i < j < |r| ==> r[i].period != r[j].period
  {
    var lo, hi := RangeStart(docs, startDate), RangeEnd(docs, endDate);
    var span := ZoomSpan(zoom);
    var r := SegmentsByTime(docs, zoom, startDate, endDate);
    SegmentDatesInOrder(docs, zoom, startDate, endDate);
    var starts := StartsFrom(span, PeriodStart(span, lo), hi);
    StartsFromBounds(span, PeriodStart(span, lo), hi);
    StartsFromAscending(span, PeriodStart(span, lo), hi);
    forall i, j | 0 <= i < j < |r|
      ensures r[i].period != r[j].period
    {
      assert starts[i] in starts && starts[j] in starts;
      assert r[i] == SegmentAt(docs, zoom, starts[i]) && r[j] == SegmentAt(docs, zoom, starts[j]);
      if r[i].period == r[j].period {
        SegmentKeyInjective(zoom, starts[i], starts[j]);
      }
    }
  }

  /** With the default range, the segment of a document's own period is listed. */
  lemma DocumentHasSegment(docs: seq<Document>, zoom: Zoom, x: Document)
    requires x in docs
    ensures var r := SegmentsByTime(docs, zoom, None, None);
      exists i :: 0 <= i < |r| && x in r[i].documents
  {
    var n :| 0 <= n < |docs| && docs[n] == x;
    assert DayNumber(RangeStart(docs, None)) <= DayNumber(x.date) <= DayNumber(RangeEnd(docs, None));
    var i := SegmentOfDay(docs, zoom, x.date);
    SegmentsHoldTheirPeriods(docs, zoom, None, None);
  }

  /** A day within the default range has the segment of its period. */
  lemma SegmentOfDay(docs: seq<Document>, zoom: Zoom, d: Date) returns (i: nat)
    requires docs != []
    requires DayNumber(RangeStart(docs, None)) <= DayNumber(d) <= DayNumber(RangeEnd(docs, None))
    ensures i < |SegmentsByTime(docs, zoom, None, None)|
    ensures SegmentsByTime(docs, zoom, None, None)[i].date == PeriodStart(ZoomSpan(zoom), d)
  {
    var lo, hi := RangeStart(docs, None), RangeEnd(docs, None);
    SegmentDatesInOrder(docs, zoom, None, None);
    PeriodListed(ZoomSpan(zoom), lo, hi, d);
    var r := SegmentsByTime(docs, zoom, None, None);
    i :| 0 <= i < |r| && SegmentDates(r)[i] == PeriodStart(ZoomSpan(zoom), d);
  }


  /** The period of a day in the range is one of the periods listed for the range. */
  lemma PeriodListed(span: Span, lo: Date, hi: Date, d: Date)
    requires DayNumber(lo) <= DayNumber(d) <= DayNumber(hi)
    ensures IsPeriodStart(span, PeriodStart(span, lo))
    ensures PeriodStart(span, d) in StartsFrom(span, PeriodStart(span, lo), hi)
  {
    PeriodStartFacts(span, lo);
    PeriodStartFacts(span, d);
    PeriodStartMonotone(span, lo, d);
    StartsFromMembers(span, PeriodStart(span, lo), hi, PeriodStart(span, d));
  }


  /** For a range in order, no document is in two segments. */
  lemma DocumentInOneSegmentOnly(docs: seq<Document>, zoom: Zoom, startDate: Option<Date>, endDate: Option<Date>, x: Document)
    requires docs != []
    requires DayNumber(RangeStart(docs, startDate)) <= DayNumber(RangeEnd(docs, endDate))
    ensures var r := SegmentsByTime(docs, zoom, startDate, endDate);
      forall i, j :: 0 <= i < |r| && 0 <= j < |r| && x in r[i].documents && x in r[j].documents ==> i == j
  {
    SegmentsHoldTheirPeriods(docs, zoom, startDate, endDate);
    SegmentsSpanRange(docs, zoom, startDate, endDate);
    var r := SegmentsByTime(docs, zoom, startDate, endDate);
    forall i, j | 0 <= i < |r| && 0 <= j < |r| && x in r[i].documents && x in r[j].documents
      ensures i == j
    {
      assert SegmentDates(r)[i] == SegmentDates(r)[j];
    }
  }

  /** With the default range, every document is in exactly one segment: the one of its own period. */
  lemma EveryDocumentInOneSegment(docs: seq<Document>, zoom: Zoom, x: Document)
    requires x in docs
    ensures var r := SegmentsByTime(docs, zoom, None, None);
      (exists i :: 0 <= i < |r| && x in r[i].documents)
      && forall i, j :: 0 <= i < |r| && 0 <= j < |r| && x in r[i].documents && x in r[j].documents ==> i == j
  {
    var n :| 0 <= n < |docs| && docs[n] == x;
    assert DayNumber(RangeStart(docs, None)) <= DayNumber(x.date) <= DayNumber(RangeEnd(docs, None));
    DocumentHasSegment(docs, zoom, x);
    DocumentInOneSegmentOnly(docs, zoom, None, None, x);
  }
}
