/**
 * `groupDocumentsByPeriod` of the drill-down timeline: documents are put into
 * year, month, week or day groups keyed by a formatted period key, optionally
 * restricted to one period of the next coarser level, and the groups are
 * returned newest first.
 *
 * The method fills a dictionary in one pass as the source does; `IsGrouping`
 * says what the result is without saying how it is computed, and
 * `GroupingUnique` shows that it pins the result down completely.
 */
module Grouping {
  import opened Wrappers
  import opened Calendar
  import opened Formatting
  import opened Buckets
  import opened Documents

  datatype DrillLevel = Year | Month | Week | Day | DocumentLevel

  datatype Group = Group(period: string, displayName: string, count: nat, documents: seq<Document>, date: Date)

  /** date-fns `startOfWeek`/`isSameWeek` without options use the en-US locale: weeks start on Sunday. */
  const DrillWeekStart: Weekday := 0

  /**
   * The calendar period of a level. The document level has no period of its own;
   * no document is grouped there, so the span given for it is never used.
   */
  function SpanOf(level: DrillLevel): Span {
    match level
    case Year => Years
    case Month => Months
    case Week => Weeks(DrillWeekStart)
    case Day => Days
    case DocumentLevel => Days
  }

  /** The dictionary key of a document's group: 'yyyy', 'yyyy-MM', the week start as 'yyyy-MM-dd', 'yyyy-MM-dd'. */
  function KeyOf(level: DrillLevel, d: Date): string {
    match level
    case Year => YearKey(d)
    case Month => MonthKey(d)
    case Week => DayKey(StartOfWeek(d, DrillWeekStart))
    case Day => DayKey(d)
    case DocumentLevel => DayKey(d)
  }

  /** The group's display name, as the document that creates the group prints it. */
  function DisplayName(level: DrillLevel, d: Date): string {
    match level
    case Year => YearText(d.year)
    case Month => LongMonthYear(d)
    case Week => "Week of " + ShortDate(StartOfWeek(d, DrillWeekStart))
    case Day => LongDate(d)
    case DocumentLevel => ""
  }

  /**
   * Whether a document dated `d` takes part in the grouping: the selected period,
   * when there is one, is compared one level coarser than `level`; the year level
   * ignores it and the document level groups nothing.
   */
  predicate Survives(level: DrillLevel, filter: Option<Date>, d: Date) {
    match level
    case Year => true
    case Month => filter.None? || IsSameYear(d, filter.value)
    case Week => filter.None? || IsSameMonth(d, filter.value)
    case Day => filter.None? || IsSameWeek(d, filter.value, DrillWeekStart)
    case DocumentLevel => false
  }

  function SurvivesFn(level: DrillLevel, filter: Option<Date>): Document -> bool {
    (doc: Document) => Survives(level, filter, doc.date)
  }

  /** The start of the period a document falls in. */
  function StartFn(level: DrillLevel): Document -> Date {
    (doc: Document) => PeriodStart(SpanOf(level), doc.date)
  }

  /** The documents that take part in the grouping, in input order. */
  function Survivors(docs: seq<Document>, level: DrillLevel, filter: Option<Date>): seq<Document> {
    Filter(docs, SurvivesFn(level, filter))
  }

  // ---------------------------------------------------------------- what a grouping is

  /**
   * `g` is the group of the period starting at `g.date`: it holds exactly the
   * surviving documents of that period, in input order, at least one of them; its
   * count is their number; key and display name are those of its first document.
   */
  predicate GroupFor(docs: seq<Document>, level: DrillLevel, filter: Option<Date>, g: Group) {
    IsPeriodStart(SpanOf(level), g.date)
    && g.documents == Members(Survivors(docs, level, filter), StartFn(level), g.date)
    && g.documents != []
    && g.count == |g.documents|
    && g.period == KeyOf(level, g.documents[0].date)
    && g.displayName == DisplayName(level, g.documents[0].date)
  }

  predicate StrictlyNewestFirst(groups: seq<Group>) {
    forall i, j :: 0 <= i < j < |groups| ==> DayNumber(groups[j].date) < DayNumber(groups[i].date)
  }

  /** Every surviving document's period has a group. */
  predicate Covers(docs: seq<Document>, level: DrillLevel, filter: Option<Date>, groups: seq<Group>) {
    forall d :: d in Survivors(docs, level, filter) ==>
      exists i :: 0 <= i < |groups| && groups[i].date == PeriodStart(SpanOf(level), d.date)
  }

  /** One group per period that has a surviving document, newest period first. */
  predicate IsGrouping(docs: seq<Document>, level: DrillLevel, filter: Option<Date>, groups: seq<Group>) {
    StrictlyNewestFirst(groups)
    && (forall i :: 0 <= i < |groups| ==> GroupFor(docs, level, filter, groups[i]))
    && Covers(docs, level, filter, groups)
  }

  // ---------------------------------------------------------------- keys

  /** Two days share a group key exactly when they fall in the same period. */
  lemma KeyOfMeaning(level: DrillLevel, a: Date, b: Date)
    ensures KeyOf(level, a) == KeyOf(level, b) <==> PeriodStart(SpanOf(level), a) == PeriodStart(SpanOf(level), b)
  {
    match level
    case Year =>
      if KeyOf(level, a) == KeyOf(level, b) {
        YearKeyInjective(a, b);
      }
    case Month =>
      if KeyOf(level, a) == KeyOf(level, b) {
        MonthKeyInjective(a, b);
      }
    case Week =>
      if KeyOf(level, a) == KeyOf(level, b) {
        DayKeyInjective(StartOfWeek(a, DrillWeekStart), StartOfWeek(b, DrillWeekStart));
      }
    case Day =>
      if KeyOf(level, a) == KeyOf(level, b) {
        DayKeyInjective(a, b);
      }
    case DocumentLevel =>
      if KeyOf(level, a) == KeyOf(level, b) {
        DayKeyInjective(a, b);
      }
  }

  /** The filter selects exactly the documents in the selected period of the next coarser level. */
  lemma FilterIsCoarserPeriod(level: DrillLevel, p: Date, d: Date)
    ensures level == Month ==> (Survives(level, Some(p), d) <==> PeriodStart(Years, d) == PeriodStart(Years, p))
    ensures level == Week ==> (Survives(level, Some(p), d) <==> PeriodStart(Months, d) == PeriodStart(Months, p))
    ensures level == Day ==>
      (Survives(level, Some(p), d) <==> PeriodStart(Weeks(DrillWeekStart), d) == PeriodStart(Weeks(DrillWeekStart), p))
    ensures level == Year ==> Survives(level, Some(p), d)
    ensures level == DocumentLevel ==> !Survives(level, Some(p), d)
  {
    if level == Month && PeriodStart(Years, d) == PeriodStart(Years, p) {
      assert StartOfYear(d).year == StartOfYear(p).year;
    }
    if level == Week && PeriodStart(Months, d) == PeriodStart(Months, p) {
      assert StartOfMonth(d).month == StartOfMonth(p).month;
    }
  }

  /** Without a selected period nothing is dropped, except at the document level. */
  lemma NoFilterKeepsAll(docs: seq<Document>, level: DrillLevel)
    requires level != DocumentLevel
    ensures Survivors(docs, level, None) == docs
  {
    FilterKeepsAll(docs, SurvivesFn(level, None));
  }

  // ---------------------------------------------------------------- sorting

  predicate NewestFirst(groups: seq<Group>) {
    forall i, j :: 0 <= i < j < |groups| ==> DayNumber(groups[j].date) <= DayNumber(groups[i].date)
  }

  /** Insert `g` before the first group that is not newer than it. */
  function InsertByDate(g: Group, sorted: seq<Group>): seq<Group> {
    if sorted == [] || DayNumber(sorted[0].date) <= DayNumber(g.date) then [g] + sorted
    else [sorted[0]] + InsertByDate(g, sorted[1..])
  }

  /**
   * `Array.prototype.sort` with the comparator `b.date - a.date`: a stable sort,
   * newest first.
   */
  function SortNewestFirst(groups: seq<Group>): seq<Group> {
    if groups == [] then [] else InsertByDate(groups[0], SortNewestFirst(groups[1..]))
  }

  lemma {:induction false} InsertByDatePermutes(g: Group, sorted: seq<Group>)
    ensures multiset(InsertByDate(g, sorted)) == multiset(sorted) + multiset{g}
  {
    if !(sorted == [] || DayNumber(sorted[0].date) <= DayNumber(g.date)) {
      InsertByDatePermutes(g, sorted[1..]);
      assert sorted == [sorted[0]] + sorted[1..];
    }
  }

  /** Whatever is inserted into a list of groups no newer than `top` stays no newer, if `g` is not. */
  lemma InsertByDateBound(g: Group, sorted: seq<Group>, top: int)
    requires DayNumber(g.date) <= top
    requires forall i :: 0 <= i < |sorted| ==> DayNumber(sorted[i].date) <= top
    ensures forall i :: 0 <= i < |InsertByDate(g, sorted)| ==> DayNumber(InsertByDate(g, sorted)[i].date) <= top
  {
    var r := InsertByDate(g, sorted);
    InsertByDatePermutes(g, sorted);
    forall i | 0 <= i < |r|
      ensures DayNumber(r[i].date) <= top
    {
      assert r[i] in multiset(r);
      if r[i] != g {
        assert r[i] in multiset(sorted);
        var n :| 0 <= n < |sorted| && sorted[n] == r[i];
      }
    }
  }

  lemma {:induction false} InsertByDateSorted(g: Group, sorted: seq<Group>)
    requires NewestFirst(sorted)
    ensures NewestFirst(InsertByDate(g, sorted))
  {
    if sorted == [] || DayNumber(sorted[0].date) <= DayNumber(g.date) {
      forall i | 0 <= i < |sorted|
        ensures DayNumber(sorted[i].date) <= DayNumber(g.date)
      {
        if i > 0 {
          assert DayNumber(sorted[i].date) <= DayNumber(sorted[0].date);
        }
      }
      ConsNewestFirst(g, sorted);
    } else {
      InsertByDateSorted(g, sorted[1..]);
      InsertByDateBound(g, sorted[1..], DayNumber(sorted[0].date));
      ConsNewestFirst(sorted[0], InsertByDate(g, sorted[1..]));
    }
  }

  /** A group no older than any of a newest-first list can go in front of it. */
  lemma ConsNewestFirst(x: Group, rest: seq<Group>)
    requires NewestFirst(rest)
    requires forall i :: 0 <= i < |rest| ==> DayNumber(rest[i].date) <= DayNumber(x.date)
    ensures NewestFirst([x] + rest)
  {
    var r := [x] + rest;
    forall i, j | 0 <= i < j < |r|
      ensures DayNumber(r[j].date) <= DayNumber(r[i].date)
    {
      assert r[j] == rest[j - 1];
      if i > 0 {
        assert r[i] == rest[i - 1];
      }
    }
  }

  /** The sort returns a permutation of its input, newest first. */
  lemma SortNewestFirstFacts(groups: seq<Group>)
    ensures multiset(SortNewestFirst(groups)) == multiset(groups)
    ensures NewestFirst(SortNewestFirst(groups))
  {
    SortNewestFirstPermutes(groups);
    SortNewestFirstSorted(groups);
  }

  lemma {:induction false} SortNewestFirstPermutes(groups: seq<Group>)
    ensures multiset(SortNewestFirst(groups)) == multiset(groups)
  {
    if groups != [] {
      var head, tail := groups[0], groups[1..];
      SortNewestFirstPermutes(tail);
      InsertByDatePermutes(head, SortNewestFirst(tail));
      assert groups == [head] + tail;
    }
  }

  lemma {:induction false} SortNewestFirstSorted(groups: seq<Group>)
    ensures NewestFirst(SortNewestFirst(groups))
  {
    if groups != [] {
      SortNewestFirstSorted(groups[1..]);
      InsertByDateSorted(groups[0], SortNewestFirst(groups[1..]));
    }
  }


  // ---------------------------------------------------------------- the grouping pass

  function KeyFn(level: DrillLevel): Document -> string {
    (doc: Document) => KeyOf(level, doc.date)
  }

  function NameFn(level: DrillLevel): Document -> string {
    (doc: Document) => DisplayName(level, doc.date)
  }

  /**
   * The dictionary entry under `k` once the documents `xs` have been pushed: the
   * documents of key `k` in order, at least one; their number; and the name and
   * period start that the first of them gave the entry when it created it.
   */
  ghost predicate Entry(xs: seq<Document>, key: Document -> string, start: Document -> Date, name: Document -> string,
                        k: string, g: Group)
  {
    && g.period == k
    && g.documents == Members(xs, key, k)
    && g.documents != []
    && g.count == |g.documents|
    && g.displayName == name(g.documents[0])
    && g.date == start(g.documents[0])
  }

  /** The dictionary and its key order after the documents `xs` have been pushed. */
  ghost predicate TableInv(xs: seq<Document>, key: Document -> string, start: Document -> Date, name: Document -> string,
                           table: map<string, Group>, order: seq<string>)
  {
    && Distinct(order)
    && (forall k :: k in table <==> k in order)
    && (forall k :: k in table ==> Entry(xs, key, start, name, k, table[k]))
    && (forall x :: x in xs ==> key(x) in table)
  }

  /**
   * The dictionary update for a document `x`: the entry under its key, created
   * empty with the name and period of `x` when the key is new, takes `x` at its
   * end; the other entries stay, and a new key goes to the end of the order.
   */
  ghost predicate Pushed(key: Document -> string, start: Document -> Date, name: Document -> string,
                         table: map<string, Group>, order: seq<string>, x: Document,
                         table': map<string, Group>, order': seq<string>)
  {
    var k := key(x);
    var g := if k in table then table[k] else Group(k, name(x), 0, [], start(x));
    && (forall j :: j in table' <==> j in table || j == k)
    && (forall j :: j in table && j != k ==> table'[j] == table[j])
    && k in table' && table'[k] == g.(count := g.count + 1, documents := g.documents + [x])
    && order' == (if k in table then order else order + [k])
  }

  /** `Object.values` of the dictionary. */
  function Values(table: map<string, Group>, order: seq<string>): (r: seq<Group>)
    requires forall k :: k in order ==> k in table
  {
    seq(|order|, j requires 0 <= j < |order| => table[order[j]])
  }

  method GroupDocumentsByPeriod(docs: seq<Document>, level: DrillLevel, filter: Option<Date>)
    returns (groups: seq<Group>)
    ensures IsGrouping(docs, level, filter, groups)
  {
    var table, order := FillTable(docs, level, filter);
    var values := Values(table, order);
    groups := SortNewestFirst(values);
    SortNewestFirstFacts(values);
    TableGivesGrouping(docs, level, filter, table, order, values, groups);
  }

  /** The `forEach` of `groupDocumentsByPeriod`: the dictionary of groups, with its keys in insertion order. */
  method FillTable(docs: seq<Document>, level: DrillLevel, filter: Option<Date>)
    returns (table: map<string, Group>, order: seq<string>)
    ensures TableInv(Survivors(docs, level, filter), KeyFn(level), StartFn(level), NameFn(level), table, order)
  {
    table, order := map[], [];
    ghost var seen: seq<Document> := [];
    for i := 0 to |docs|
      invariant seen == Survivors(docs[..i], level, filter)
      invariant TableInv(seen, KeyFn(level), StartFn(level), NameFn(level), table, order)
    {
      table, order := Visit(seen, SurvivesFn(level, filter), KeyFn(level), StartFn(level), NameFn(level), table, order, docs[i]);
      SurvivorsStep(docs, i, level, filter);
      seen := if SurvivesFn(level, filter)(docs[i]) then seen + [docs[i]] else seen;
    }
    assert docs[..|docs|] == docs;
  }

  /** The survivors of one more document of the input. */
  lemma SurvivorsStep(docs: seq<Document>, i: nat, level: DrillLevel, filter: Option<Date>)
    requires i < |docs|
    ensures Survivors(docs[..i + 1], level, filter)
            == if SurvivesFn(level, filter)(docs[i]) then Survivors(docs[..i], level, filter) + [docs[i]] else Survivors(docs[..i], level, filter)
  {
    assert docs[..i + 1] == docs[..i] + [docs[i]];
    SurvivorsSnoc(docs[..i], level, filter, docs[i]);
  }

  /**
   * One iteration of the `forEach`: a document that passes the filter joins the
   * group of its key, which it creates when it is the first of its period. The
   * level's filter, key, period start and display name are the parameters.
   */
  method Visit(ghost xs: seq<Document>, survives: Document -> bool, key: Document -> string,
               start: Document -> Date, name: Document -> string,
               table: map<string, Group>, order: seq<string>, doc: Document)
    returns (table': map<string, Group>, order': seq<string>)
    requires TableInv(xs, key, start, name, table, order)
    ensures TableInv(if survives(doc) then xs + [doc] else xs, key, start, name, table', order')
    ensures !survives(doc) ==> table' == table && order' == order
  {
    if !survives(doc) {
      return table, order;
    }
    var k := key(doc);
    var g: Group;
    if k in table {
      g := table[k];
      order' := order;
    } else {
      g := Group(k, name(doc), 0, [], start(doc));
      order' := order + [k];
    }
    table' := table[k := g.(count := g.count + 1, documents := g.documents + [doc])];
    PushKeepsTable(xs, key, start, name, table, order, doc, table', order');
  }

  // ---------------------------------------------------------------- proof of the pass

  /** Pushing a document keeps the dictionary what `TableInv` says it is. */
  lemma PushKeepsTable(xs: seq<Document>, key: Document -> string, start: Document -> Date, name: Document -> string,
                       table: map<string, Group>, order: seq<string>, x: Document,
                       table': map<string, Group>, order': seq<string>)
    requires TableInv(xs, key, start, name, table, order)
    requires Pushed(key, start, name, table, order, x, table', order')
    ensures TableInv(xs + [x], key, start, name, table', order')
  {
    var k := key(x);
    KeysKept(table, order, k, table', order');
    forall j | j in table'
      ensures Entry(xs + [x], key, start, name, j, table'[j])
    {
      MembersSnoc(xs, x, key, j);
      if j != k {
        assert table'[j] == table[j];
      } else if k in table {
        PushOntoEntry(xs, key, start, name, k, table[k], x);
      } else {
        NewKeyNoMembers(xs, key, table, k);
      }
    }
  }

  /** A document of key `k` goes to the end of the entry of `k`, whose first document stays first. */
  lemma PushOntoEntry(xs: seq<Document>, key: Document -> string, start: Document -> Date, name: Document -> string,
                      k: string, g: Group, x: Document)
    requires Entry(xs, key, start, name, k, g) && key(x) == k
    ensures Entry(xs + [x], key, start, name, k, g.(count := g.count + 1, documents := g.documents + [x]))
  {
    MembersSnoc(xs, x, key, k);
    assert (g.documents + [x])[0] == g.documents[0];
  }

  /** A key without an entry has no documents yet. */
  lemma NewKeyNoMembers(xs: seq<Document>, key: Document -> string, table: map<string, Group>, k: string)
    requires forall x :: x in xs ==> key(x) in table
    requires k !in table
    ensures Members(xs, key, k) == []
  {
    forall i | 0 <= i < |xs|
      ensures !HasKey(key, k)(xs[i])
    {
      assert xs[i] in xs;
    }
    FilterDropsAll(xs, HasKey(key, k));
  }

  /** Adding key `k` keeps the key order free of repeats and in step with the dictionary. */
  lemma KeysKept(table: map<string, Group>, order: seq<string>, k: string,
                 table': map<string, Group>, order': seq<string>)
    requires Distinct(order) && (forall j :: j in table <==> j in order)
    requires forall j :: j in table' <==> j in table || j == k
    requires order' == (if k in table then order else order + [k])
    ensures Distinct(order') && (forall j :: j in table' <==> j in order')
  {
    if k !in table {
      DistinctSnoc(order, k);
    }
  }

  lemma SurvivorsSnoc(prefix: seq<Document>, level: DrillLevel, filter: Option<Date>, x: Document)
    ensures Survives(level, filter, x.date) ==> Survivors(prefix + [x], level, filter) == Survivors(prefix, level, filter) + [x]
    ensures !Survives(level, filter, x.date) ==> Survivors(prefix + [x], level, filter) == Survivors(prefix, level, filter)
  {
    FilterSnoc(prefix, x, SurvivesFn(level, filter));
    assert Survivors(prefix, level, filter) + [] == Survivors(prefix, level, filter);
  }

  /** A document of a group lies in the group's period and survives. */
  lemma MemberFacts(docs: seq<Document>, level: DrillLevel, filter: Option<Date>, date: Date, y: Document)
    requires y in Members(Survivors(docs, level, filter), StartFn(level), date)
    ensures y in Survivors(docs, level, filter) && PeriodStart(SpanOf(level), y.date) == date
  {
    MembersMeaning(Survivors(docs, level, filter), StartFn(level), date);
  }

  /** A group is determined by its period: its documents, and from them everything else. */
  lemma GroupDeterminedByDate(docs: seq<Document>, level: DrillLevel, filter: Option<Date>, g1: Group, g2: Group)
    requires GroupFor(docs, level, filter, g1) && GroupFor(docs, level, filter, g2)
    requires g1.date == g2.date
    ensures g1 == g2
  {
  }

  /** The entry of a key is the group of the period its documents share. */
  lemma EntryIsGroup(docs: seq<Document>, level: DrillLevel, filter: Option<Date>, k: string, g: Group)
    requires Entry(Survivors(docs, level, filter), KeyFn(level), StartFn(level), NameFn(level), k, g)
    ensures GroupFor(docs, level, filter, g)
    ensures forall d :: KeyOf(level, d) == k ==> g.date == PeriodStart(SpanOf(level), d)
  {
    var S := Survivors(docs, level, filter);
    var first := g.documents[0];
    MembersMeaning(S, KeyFn(level), k);
    assert first in g.documents;
    PeriodStartFacts(SpanOf(level), first.date);
    forall d | KeyOf(level, d) == k
      ensures g.date == PeriodStart(SpanOf(level), d)
    {
      KeyOfMeaning(level, d, first.date);
    }
    forall i | 0 <= i < |S|
      ensures HasKey(KeyFn(level), k)(S[i]) == HasKey(StartFn(level), g.date)(S[i])
    {
      KeyOfMeaning(level, S[i].date, first.date);
    }
    FilterAgree(S, HasKey(KeyFn(level), k), HasKey(StartFn(level), g.date));
  }

  /** Two different groups of one grouping are groups of different periods. */
  lemma GroupsDifferInDate(docs: seq<Document>, level: DrillLevel, filter: Option<Date>, g1: Group, g2: Group)
    requires GroupFor(docs, level, filter, g1) && GroupFor(docs, level, filter, g2)
    requires g1 != g2
    ensures DayNumber(g1.date) != DayNumber(g2.date)
  {
    DayNumberOrder(g1.date, g2.date);
  }

  lemma TableGivesGrouping(docs: seq<Document>, level: DrillLevel, filter: Option<Date>,
                           table: map<string, Group>, order: seq<string>,
                           values: seq<Group>, groups: seq<Group>)
    requires TableInv(Survivors(docs, level, filter), KeyFn(level), StartFn(level), NameFn(level), table, order)
    requires values == Values(table, order)
    requires multiset(groups) == multiset(values) && NewestFirst(groups)
    ensures IsGrouping(docs, level, filter, groups)
  {
    var S := Survivors(docs, level, filter);
    forall i | 0 <= i < |groups|
      ensures GroupFor(docs, level, filter, groups[i])
    {
      assert groups[i] in multiset(values);
      var j :| 0 <= j < |values| && values[j] == groups[i];
      EntryIsGroup(docs, level, filter, order[j], table[order[j]]);
    }
    assert Distinct(values) by {
      forall i, j | 0 <= i < j < |values|
        ensures values[i] != values[j]
      {
        assert values[i].period == order[i] && values[j].period == order[j];
      }
    }
    DistinctSamePermutation(values, groups);
    forall i, j | 0 <= i < j < |groups|
      ensures DayNumber(groups[j].date) < DayNumber(groups[i].date)
    {
      GroupsDifferInDate(docs, level, filter, groups[i], groups[j]);
    }
    TableCovers(docs, level, filter, table, order, values, groups);
  }

  lemma TableCovers(docs: seq<Document>, level: DrillLevel, filter: Option<Date>,
                    table: map<string, Group>, order: seq<string>,
                    values: seq<Group>, groups: seq<Group>)
    requires TableInv(Survivors(docs, level, filter), KeyFn(level), StartFn(level), NameFn(level), table, order)
    requires values == Values(table, order)
    requires multiset(groups) == multiset(values)
    ensures Covers(docs, level, filter, groups)
  {
    forall d | d in Survivors(docs, level, filter)
      ensures exists i :: 0 <= i < |groups| && groups[i].date == PeriodStart(SpanOf(level), d.date)
    {
      var g := TableGroupOf(docs, level, filter, table, order, d);
      assert values[IndexOf(order, KeyOf(level, d.date))] == g;
      assert g in multiset(values);
      var i :| 0 <= i < |groups| && groups[i] == g;
    }
  }

  /** The dictionary entry of a surviving document's key starts on that document's period start. */
  lemma TableGroupOf(docs: seq<Document>, level: DrillLevel, filter: Option<Date>,
                     table: map<string, Group>, order: seq<string>, d: Document) returns (g: Group)
    requires TableInv(Survivors(docs, level, filter), KeyFn(level), StartFn(level), NameFn(level), table, order)
    requires d in Survivors(docs, level, filter)
    ensures KeyOf(level, d.date) in order && KeyOf(level, d.date) in table
    ensures g == table[KeyOf(level, d.date)] && g.date == PeriodStart(SpanOf(level), d.date)
  {
    var k := KeyOf(level, d.date);
    assert KeyFn(level)(d) == k;
    g := table[k];
    EntryIsGroup(docs, level, filter, k, g);
  }

  function IndexOf(xs: seq<string>, x: string): (i: nat)
    requires x in xs
    ensures i < |xs| && xs[i] == x
  {
    if xs[0] == x then 0 else 1 + IndexOf(xs[1..], x)
  }


  // ---------------------------------------------------------------- properties of a grouping

  function DayNumbers(groups: seq<Group>): (r: seq<int>)
    ensures |r| == |groups| && forall i :: 0 <= i < |groups| ==> r[i] == DayNumber(groups[i].date)
  {
    seq(|groups|, i requires 0 <= i < |groups| => DayNumber(groups[i].date))
  }

  /** The period of a group of one grouping is the period of a group of any other. */
  lemma PeriodShared(docs: seq<Document>, level: DrillLevel, filter: Option<Date>, g: Group, g2: seq<Group>)
    requires GroupFor(docs, level, filter, g) && Covers(docs, level, filter, g2)
    ensures exists j :: 0 <= j < |g2| && g2[j].date == g.date
  {
    var d := g.documents[0];
    MemberFacts(docs, level, filter, g.date, d);
    var j :| 0 <= j < |g2| && g2[j].date == PeriodStart(SpanOf(level), d.date);
  }

  /** Every period of one grouping is a period of any other. */
  lemma DayNumbersShared(docs: seq<Document>, level: DrillLevel, filter: Option<Date>, g1: seq<Group>, g2: seq<Group>)
    requires forall i :: 0 <= i < |g1| ==> GroupFor(docs, level, filter, g1[i])
    requires Covers(docs, level, filter, g2)
    ensures forall x :: x in DayNumbers(g1) ==> x in DayNumbers(g2)
  {
    var d1, d2 := DayNumbers(g1), DayNumbers(g2);
    forall x | x in d1
      ensures x in d2
    {
      var i :| 0 <= i < |d1| && d1[i] == x;
      PeriodShared(docs, level, filter, g1[i], g2);
      var j :| 0 <= j < |g2| && g2[j].date == g1[i].date;
      assert d2[j] == x;
    }
  }

  /** `IsGrouping` admits exactly one result. */
  lemma GroupingUnique(docs: seq<Document>, level: DrillLevel, filter: Option<Date>, g1: seq<Group>, g2: seq<Group>)
    requires IsGrouping(docs, level, filter, g1) && IsGrouping(docs, level, filter, g2)
    ensures g1 == g2
  {
    var d1, d2 := DayNumbers(g1), DayNumbers(g2);
    DayNumbersShared(docs, level, filter, g1, g2);
    DayNumbersShared(docs, level, filter, g2, g1);
    SameDescending(d1, d2);
    forall i | 0 <= i < |g1|
      ensures g1[i] == g2[i]
    {
      assert d1[i] == d2[i];
      DayNumberOrder(g1[i].date, g2[i].date);
      GroupDeterminedByDate(docs, level, filter, g1[i], g2[i]);
    }
  }

  /**
   * The groups partition the surviving documents: each survivor is in the group
   * of its own period and in no other, and groups hold nothing else.
   */
  lemma GroupingPartition(docs: seq<Document>, level: DrillLevel, filter: Option<Date>, groups: seq<Group>)
    requires IsGrouping(docs, level, filter, groups)
    ensures forall d :: d in Survivors(docs, level, filter) ==> exists i :: 0 <= i < |groups| && d in groups[i].documents
    ensures forall i, d :: 0 <= i < |groups| && d in groups[i].documents ==>
              d in Survivors(docs, level, filter) && PeriodStart(SpanOf(level), d.date) == groups[i].date
    ensures forall i, j, d :: 0 <= i < |groups| && 0 <= j < |groups| && d in groups[i].documents && d in groups[j].documents ==> i == j
  {
    GroupingCovers(docs, level, filter, groups);
    GroupingHoldsOwn(docs, level, filter, groups);
    GroupingDisjoint(docs, level, filter, groups);
  }

  /** A group holds exactly the survivors of its period. */
  lemma GroupHolds(docs: seq<Document>, level: DrillLevel, filter: Option<Date>, groups: seq<Group>, i: int)
    requires IsGrouping(docs, level, filter, groups) && 0 <= i < |groups|
    ensures forall d :: d in groups[i].documents <==>
              d in Survivors(docs, level, filter) && PeriodStart(SpanOf(level), d.date) == groups[i].date
  {
    MembersMeaning(Survivors(docs, level, filter), StartFn(level), groups[i].date);
  }

  lemma GroupingCovers(docs: seq<Document>, level: DrillLevel, filter: Option<Date>, groups: seq<Group>)
    requires IsGrouping(docs, level, filter, groups)
    ensures forall d :: d in Survivors(docs, level, filter) ==> exists i :: 0 <= i < |groups| && d in groups[i].documents
  {
    forall d | d in Survivors(docs, level, filter)
      ensures exists i :: 0 <= i < |groups| && d in groups[i].documents
    {
      var i :| 0 <= i < |groups| && groups[i].date == PeriodStart(SpanOf(level), d.date);
      GroupHolds(docs, level, filter, groups, i);
    }
  }

  lemma GroupingHoldsOwn(docs: seq<Document>, level: DrillLevel, filter: Option<Date>, groups: seq<Group>)
    requires IsGrouping(docs, level, filter, groups)
    ensures forall i, d :: 0 <= i < |groups| && d in groups[i].documents ==>
              d in Survivors(docs, level, filter) && PeriodStart(SpanOf(level), d.date) == groups[i].date
  {
    forall i, d | 0 <= i < |groups| && d in groups[i].documents
      ensures d in Survivors(docs, level, filter) && PeriodStart(SpanOf(level), d.date) == groups[i].date
    {
      GroupHolds(docs, level, filter, groups, i);
    }
  }

  lemma GroupingDisjoint(docs: seq<Document>, level: DrillLevel, filter: Option<Date>, groups: seq<Group>)
    requires IsGrouping(docs, level, filter, groups)
    ensures forall i, j, d :: 0 <= i < |groups| && 0 <= j < |groups| && d in groups[i].documents && d in groups[j].documents ==> i == j
  {
    forall i, j, d | 0 <= i < |groups| && 0 <= j < |groups| && d in groups[i].documents && d in groups[j].documents
      ensures i == j
    {
      GroupHolds(docs, level, filter, groups, i);
      GroupHolds(docs, level, filter, groups, j);
      assert groups[i].date == groups[j].date;
    }
  }

  function SumCounts(groups: seq<Group>): nat {
    if groups == [] then 0 else groups[0].count + SumCounts(groups[1..])
  }

  function Dates(groups: seq<Group>): (r: seq<Date>)
    ensures |r| == |groups| && forall i :: 0 <= i < |groups| ==> r[i] == groups[i].date
  {
    seq(|groups|, i requires 0 <= i < |groups| => groups[i].date)
  }

  lemma {:induction false} SumCountsIsTotalSize(docs: seq<Document>, level: DrillLevel, filter: Option<Date>, groups: seq<Group>)
    requires forall i :: 0 <= i < |groups| ==> GroupFor(docs, level, filter, groups[i])
    ensures SumCounts(groups) == TotalSize(Survivors(docs, level, filter), StartFn(level), Dates(groups))
  {
    if groups != [] {
      SumCountsIsTotalSize(docs, level, filter, groups[1..]);
      assert Dates(groups)[1..] == Dates(groups[1..]);
    }
  }

  /** The counts of all groups add up to the number of surviving documents. */
  lemma GroupingCountsTotal(docs: seq<Document>, level: DrillLevel, filter: Option<Date>, groups: seq<Group>)
    requires IsGrouping(docs, level, filter, groups)
    ensures SumCounts(groups) == |Survivors(docs, level, filter)|
  {
    var S := Survivors(docs, level, filter);
    SumCountsIsTotalSize(docs, level, filter, groups);
    var ds := Dates(groups);
    forall n | 0 <= n < |S|
      ensures StartFn(level)(S[n]) in ds
    {
      assert S[n] in S;
      var i :| 0 <= i < |groups| && groups[i].date == PeriodStart(SpanOf(level), S[n].date);
      assert ds[i] == groups[i].date;
    }
    PartitionSize(S, StartFn(level), ds);
  }

  lemma {:induction false} SumCountsAtLeast(groups: seq<Group>)
    requires forall i :: 0 <= i < |groups| ==> groups[i].count >= 1
    ensures SumCounts(groups) >= |groups|
  {
    if groups != [] {
      SumCountsAtLeast(groups[1..]);
    }
  }

  /** At the document level nothing is grouped. */
  lemma DocumentLevelGroupsNothing(docs: seq<Document>, filter: Option<Date>, groups: seq<Group>)
    requires IsGrouping(docs, DocumentLevel, filter, groups)
    ensures groups == []
  {
    FilterDropsAll(docs, SurvivesFn(DocumentLevel, filter));
    GroupingCountsTotal(docs, DocumentLevel, filter, groups);
    SumCountsAtLeast(groups);
  }

  // ---------------------------------------------------------------- the sample documents

  /** The first day of the month of each sample document, in list order. */
  lemma SampleMonthStarts()
    ensures var docs := SampleDocuments();
      forall i :: 0 <= i < |docs| ==>
        StartFn(Month)(docs[i])
        == (if i < 4 then YMD(2024, 12, 1) else if i < 7 then YMD(2024, 11, 1) else if i < 9 then YMD(2024, 10, 1) else YMD(2024, 9, 1))
  {
    var docs := SampleDocuments();
    SampleMonths();
    forall i | 0 <= i < |docs|
      ensures StartFn(Month)(docs[i]) == YMD(docs[i].date.year, docs[i].date.month, 1)
    {
    }
  }

  /** The year and month of each sample document, in list order. */
  lemma SampleMonths()
    ensures var docs := SampleDocuments();
      forall i :: 0 <= i < |docs| ==>
        docs[i].date.year == 2024
        && docs[i].date.month == (if i < 4 then 12 else if i < 7 then 11 else if i < 9 then 10 else 9)
  {
  }

  /** The group of one month of the sample, holding the documents from `lo` to `hi - 1`. */
  function SampleMonthGroup(lo: nat, hi: nat, start: Date): Group
    requires lo < hi <= |SampleDocuments()|
  {
    var docs := SampleDocuments();
    Group(MonthKey(docs[lo].date), LongMonthYear(docs[lo].date), hi - lo, docs[lo..hi], start)
  }

  function ExpectedSampleMonths(): seq<Group> {
    [ SampleMonthGroup(0, 4, YMD(2024, 12, 1)), SampleMonthGroup(4, 7, YMD(2024, 11, 1)),
      SampleMonthGroup(7, 9, YMD(2024, 10, 1)), SampleMonthGroup(9, 10, YMD(2024, 9, 1)) ]
  }

  /** The group of the sample documents from `lo` to `hi - 1` is the group of the month starting on `start`. */
  lemma SampleGroupFor(lo: nat, hi: nat, start: Date)
    requires lo < hi <= |SampleDocuments()| && start.day == 1
    requires forall i :: 0 <= i < |SampleDocuments()| ==> (StartFn(Month)(SampleDocuments()[i]) == start <==> lo <= i < hi)
    ensures GroupFor(SampleDocuments(), Month, None, SampleMonthGroup(lo, hi, start))
  {
    var docs := SampleDocuments();
    NoFilterKeepsAll(docs, Month);
    ContiguousBucket(docs, StartFn(Month), start, lo, hi);
  }

  lemma ExpectedSampleMonthsIsGrouping()
    ensures IsGrouping(SampleDocuments(), Month, None, ExpectedSampleMonths())
  {
    var gs := ExpectedSampleMonths();
    forall i | 0 <= i < |gs|
      ensures GroupFor(SampleDocuments(), Month, None, gs[i])
    {
      if i == 0 {
        SampleDecember();
      } else if i == 1 {
        SampleNovember();
      } else if i == 2 {
        SampleOctober();
      } else {
        SampleSeptember();
      }
    }
    ExpectedSampleMonthsDescend();
    ExpectedSampleMonthsCover();
  }

  lemma SampleDecember()
    ensures GroupFor(SampleDocuments(), Month, None, SampleMonthGroup(0, 4, YMD(2024, 12, 1)))
  {
    SampleMonthStarts();
    SampleGroupFor(0, 4, YMD(2024, 12, 1));
  }

  lemma SampleNovember()
    ensures GroupFor(SampleDocuments(), Month, None, SampleMonthGroup(4, 7, YMD(2024, 11, 1)))
  {
    SampleMonthStarts();
    SampleGroupFor(4, 7, YMD(2024, 11, 1));
  }

  lemma SampleOctober()
    ensures GroupFor(SampleDocuments(), Month, None, SampleMonthGroup(7, 9, YMD(2024, 10, 1)))
  {
    SampleMonthStarts();
    SampleGroupFor(7, 9, YMD(2024, 10, 1));
  }

  lemma SampleSeptember()
    ensures GroupFor(SampleDocuments(), Month, None, SampleMonthGroup(9, 10, YMD(2024, 9, 1)))
  {
    SampleMonthStarts();
    SampleGroupFor(9, 10, YMD(2024, 9, 1));
  }

  lemma ExpectedSampleMonthsDescend()
    ensures StrictlyNewestFirst(ExpectedSampleMonths())
  {
    var gs := ExpectedSampleMonths();
    DayNumberOrder(gs[1].date, gs[0].date);
    DayNumberOrder(gs[2].date, gs[1].date);
    DayNumberOrder(gs[3].date, gs[2].date);
  }

  lemma ExpectedSampleMonthsCover()
    ensures Covers(SampleDocuments(), Month, None, ExpectedSampleMonths())
  {
    var docs := SampleDocuments();
    NoFilterKeepsAll(docs, Month);
    forall d | d in Survivors(docs, Month, None)
      ensures exists i :: 0 <= i < |ExpectedSampleMonths()| && ExpectedSampleMonths()[i].date == PeriodStart(SpanOf(Month), d.date)
    {
      var n :| 0 <= n < |docs| && docs[n] == d;
      var i := SampleMonthOf(n);
    }
  }

  /** The expected month group of the sample document at index `n`. */
  lemma SampleMonthOf(n: nat) returns (i: nat)
    requires n < |SampleDocuments()|
    ensures i < |ExpectedSampleMonths()| && ExpectedSampleMonths()[i].date == PeriodStart(SpanOf(Month), SampleDocuments()[n].date)
  {
    SampleMonthStarts();
    i := if n < 4 then 0 else if n < 7 then 1 else if n < 9 then 2 else 3;
    assert ExpectedSampleMonths()[i].date == StartFn(Month)(SampleDocuments()[n]);
  }


  lemma SampleMonthLabels()
    ensures LongMonthYear(YMD(2024, 12, 15)) == "December 2024" && MonthKey(YMD(2024, 12, 15)) == "2024-12"
    ensures LongMonthYear(YMD(2024, 11, 22)) == "November 2024" && MonthKey(YMD(2024, 11, 22)) == "2024-11"
    ensures LongMonthYear(YMD(2024, 10, 25)) == "October 2024" && MonthKey(YMD(2024, 10, 25)) == "2024-10"
    ensures LongMonthYear(YMD(2024, 9, 30)) == "September 2024" && MonthKey(YMD(2024, 9, 30)) == "2024-09"
  {
    Year2024();
    SampleMonthNumbers();
  }

  lemma SampleMonthNumbers()
    ensures Pad(12, 2) == "12" && Pad(11, 2) == "11" && Pad(10, 2) == "10" && Pad(9, 2) == "09"
  {
    assert Digits(1) == "1" && Digits(0) == "0" && Digits(9) == "9" && Zeros(1) == "0";
  }

  lemma Year2024()
    ensures YearText(2024) == "2024"
  {
    assert Digits(2) == "2" && Digits(20) == "20" && Digits(202) == "202";
  }


  lemma ExpectedSampleMonthsFacts()
    ensures var gs := ExpectedSampleMonths();
      && gs[0].period == "2024-12" && gs[0].displayName == "December 2024" && gs[0].count == 4
      && gs[1].period == "2024-11" && gs[1].displayName == "November 2024" && gs[1].count == 3
      && gs[2].period == "2024-10" && gs[2].displayName == "October 2024" && gs[2].count == 2
      && gs[3].period == "2024-09" && gs[3].displayName == "September 2024" && gs[3].count == 1
  {
    var docs := SampleDocuments();
    assert docs[0].date == YMD(2024, 12, 15) && docs[4].date == YMD(2024, 11, 22);
    assert docs[7].date == YMD(2024, 10, 25) && docs[9].date == YMD(2024, 9, 30);
    SampleMonthLabels();
  }

  /**
   * The sample documents at the month level, with no period selected: December
   * 2024 with four documents, November with three, October with two and
   * September with one, in that order.
   */
  lemma SampleMonthGrouping(groups: seq<Group>)
    requires IsGrouping(SampleDocuments(), Month, None, groups)
    ensures |groups| == 4
    ensures groups[0].period == "2024-12" && groups[0].displayName == "December 2024" && groups[0].count == 4
    ensures groups[1].period == "2024-11" && groups[1].displayName == "November 2024" && groups[1].count == 3
    ensures groups[2].period == "2024-10" && groups[2].displayName == "October 2024" && groups[2].count == 2
    ensures groups[3].period == "2024-09" && groups[3].displayName == "September 2024" && groups[3].count == 1
  {
    ExpectedSampleMonthsIsGrouping();
    GroupingUnique(SampleDocuments(), Month, None, groups, ExpectedSampleMonths());
    ExpectedSampleMonthsFacts();
  }
}
