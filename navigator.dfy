/**
 * The drill-down navigator of the timeline: the current level, the selected
 * period and the breadcrumb trail, the two handlers that change them, and what
 * the view shows in a given state (groups, or the documents of one day).
 *
 * The transitions are plain functions on `NavState`; the `Navigator` class holds
 * the same three state fields and its handlers are specified by those functions.
 */
module Navigation {
  import opened Wrappers
  import opened Calendar
  import opened Buckets
  import opened Documents
  import opened Grouping

  datatype Breadcrumb = Breadcrumb(level: DrillLevel, period: Option<Date>, caption: string)

  datatype NavState = NavState(level: DrillLevel, selected: Option<Date>, crumbs: seq<Breadcrumb>)

  /** The first breadcrumb, present from the start and never removed. */
  const Root: Breadcrumb := Breadcrumb(Month, None, "All Months")

  /** The month level, no selected period, and the root breadcrumb alone. */
  const Initial: NavState := NavState(Month, None, [Root])

  /** How far down a level is: year 0, month 1, week 2, day 3, documents 4. */
  function Depth(level: DrillLevel): nat {
    match level
    case Year => 0
    case Month => 1
    case Week => 2
    case Day => 3
    case DocumentLevel => 4
  }

  /** The level a drill-down leads to: one level deeper, the document level being the deepest. */
  function NextLevel(level: DrillLevel): (r: DrillLevel)
    ensures Depth(r) == if Depth(level) < 4 then Depth(level) + 1 else 4
    ensures r != Year
  {
    match level
    case Year => Month
    case Month => Week
    case Week => Day
    case Day => DocumentLevel
    case DocumentLevel => DocumentLevel
  }

  /** `handleDrillDown(group)`: go one level deeper into the group's period and add its breadcrumb. */
  function AfterDrill(s: NavState, g: Group): NavState {
    var next := NextLevel(s.level);
    NavState(next, Some(g.date), s.crumbs + [Breadcrumb(next, Some(g.date), g.displayName)])
  }

  /**
   * `handleBreadcrumbClick(index)`: return to the level and period of breadcrumb
   * `index` and drop the breadcrumbs after it. An index outside the trail makes
   * the source fail on `undefined.level` before any state is set: `None`.
   */
  function AfterClick(s: NavState, index: int): Option<NavState> {
    if 0 <= index < |s.crumbs| then
      Some(NavState(s.crumbs[index].level, s.crumbs[index].period, s.crumbs[..index + 1]))
    else None
  }

  /** A sequence of drill-downs, one per group, in order. */
  function DrillAll(s: NavState, gs: seq<Group>): NavState
    decreases |gs|
  {
    if gs == [] then s else DrillAll(AfterDrill(s, gs[0]), gs[1..])
  }

  /**
   * The states the handlers can reach: the trail starts at the root, each later
   * breadcrumb is one drill-down below the one before it and names a period, and
   * the last breadcrumb holds the current level and period.
   */
  predicate Consistent(s: NavState) {
    |s.crumbs| >= 1
    && s.crumbs[0] == Root
    && (forall k :: 0 < k < |s.crumbs| ==>
          s.crumbs[k].level == NextLevel(s.crumbs[k - 1].level) && s.crumbs[k].period.Some?)
    && s.level == s.crumbs[|s.crumbs| - 1].level
    && s.selected == s.crumbs[|s.crumbs| - 1].period
  }

  // ---------------------------------------------------------------- the state machine

  lemma InitialConsistent()
    ensures Consistent(Initial)
    ensures Initial.level == Month && Initial.selected == None && |Initial.crumbs| == 1
  {
  }

  /** A drill-down keeps the earlier breadcrumbs, adds exactly one, and keeps the state consistent. */
  lemma DrillConsistent(s: NavState, g: Group)
    requires Consistent(s)
    ensures Consistent(AfterDrill(s, g))
    ensures |AfterDrill(s, g).crumbs| == |s.crumbs| + 1
    ensures AfterDrill(s, g).crumbs[..|s.crumbs|] == s.crumbs
    ensures AfterDrill(s, g).selected == Some(g.date)
  {
    var t := AfterDrill(s, g);
    assert t.crumbs[..|s.crumbs|] == s.crumbs;
    forall k | 0 < k < |t.crumbs|
      ensures t.crumbs[k].level == NextLevel(t.crumbs[k - 1].level) && t.crumbs[k].period.Some?
    {
      if k < |s.crumbs| {
        assert t.crumbs[k] == s.crumbs[k] && t.crumbs[k - 1] == s.crumbs[k - 1];
      }
    }
  }

  /** A click on a breadcrumb of the trail keeps the state consistent and the trail a prefix of the old one. */
  lemma ClickConsistent(s: NavState, index: int)
    requires Consistent(s)
    ensures AfterClick(s, index).Some? <==> 0 <= index < |s.crumbs|
    ensures AfterClick(s, index).Some? ==>
              Consistent(AfterClick(s, index).value)
              && |AfterClick(s, index).value.crumbs| == index + 1
              && AfterClick(s, index).value.crumbs <= s.crumbs
  {
    if 0 <= index < |s.crumbs| {
      var t := AfterClick(s, index).value;
      forall k | 0 < k < |t.crumbs|
        ensures t.crumbs[k].level == NextLevel(t.crumbs[k - 1].level) && t.crumbs[k].period.Some?
      {
        assert t.crumbs[k] == s.crumbs[k] && t.crumbs[k - 1] == s.crumbs[k - 1];
      }
    }
  }

  lemma {:induction false} DepthOfCrumb(s: NavState, k: nat)
    requires Consistent(s) && k < |s.crumbs|
    ensures Depth(s.crumbs[k].level) == if k < 3 then k + 1 else 4
  {
    if k > 0 {
      DepthOfCrumb(s, k - 1);
    }
  }

  /**
   * In a reachable state the level is fixed by the length of the trail: month
   * with one breadcrumb, week with two, day with three, documents from four on.
   * In particular the year level is never reached.
   */
  lemma LevelFollowsTrail(s: NavState)
    requires Consistent(s)
    ensures Depth(s.level) == if |s.crumbs| < 4 then |s.crumbs| else 4
    ensures s.level != Year
  {
    DepthOfCrumb(s, |s.crumbs| - 1);
  }

  /** Clicking the last breadcrumb changes nothing. */
  lemma ClickLastChangesNothing(s: NavState)
    requires Consistent(s)
    ensures AfterClick(s, |s.crumbs| - 1) == Some(s)
  {
    assert s.crumbs[..|s.crumbs|] == s.crumbs;
  }

  lemma {:induction false} DrillAllKeepsTrail(s: NavState, gs: seq<Group>)
    requires Consistent(s)
    ensures Consistent(DrillAll(s, gs))
    ensures |DrillAll(s, gs).crumbs| == |s.crumbs| + |gs|
    ensures DrillAll(s, gs).crumbs[..|s.crumbs|] == s.crumbs
    decreases |gs|
  {
    if gs != [] {
      var t := AfterDrill(s, gs[0]);
      DrillConsistent(s, gs[0]);
      DrillAllKeepsTrail(t, gs[1..]);
      var u := DrillAll(t, gs[1..]);
      assert u.crumbs[..|s.crumbs|] == u.crumbs[..|t.crumbs|][..|s.crumbs|];
    }
  }

  /**
   * Clicking the breadcrumb that was last before any number of drill-downs
   * undoes all of them: the earlier state comes back exactly.
   */
  lemma ClickUndoesDrills(s: NavState, gs: seq<Group>)
    requires Consistent(s)
    ensures AfterClick(DrillAll(s, gs), |s.crumbs| - 1) == Some(s)
  {
    DrillAllKeepsTrail(s, gs);
    var u := DrillAll(s, gs);
    var n := |s.crumbs|;
    assert u.crumbs[n - 1] == s.crumbs[n - 1];
    assert u.crumbs[..n] == s.crumbs;
  }

  /** A drill-down followed by a click on the root breadcrumb restores the initial state. */
  lemma DrillThenRoot(g: Group)
    ensures AfterClick(AfterDrill(Initial, g), 0) == Some(Initial)
  {
    ClickUndoesDrills(Initial, [g]);
  }

  // ---------------------------------------------------------------- what the view shows

  function SameDayFn(p: Date): Document -> bool {
    (doc: Document) => IsSameDay(doc.date, p)
  }

  /** `getCurrentDocuments`: the selected day's documents at the document level, otherwise all of them. */
  function CurrentDocuments(docs: seq<Document>, level: DrillLevel, selected: Option<Date>): seq<Document> {
    if level == DocumentLevel && selected.Some? then Filter(docs, SameDayFn(selected.value)) else docs
  }

  /** `individualDocs`: the current documents at the document level, nothing at the others. */
  function IndividualDocs(docs: seq<Document>, level: DrillLevel, selected: Option<Date>): seq<Document> {
    if level == DocumentLevel then CurrentDocuments(docs, level, selected) else []
  }

  lemma IndividualDocsMeaning(docs: seq<Document>, level: DrillLevel, selected: Option<Date>)
    ensures level != DocumentLevel ==> IndividualDocs(docs, level, selected) == []
    ensures level == DocumentLevel && selected.None? ==> IndividualDocs(docs, level, selected) == docs
    ensures level == DocumentLevel && selected.Some? ==>
              forall x :: x in IndividualDocs(docs, level, selected) <==> x in docs && x.date == selected.value
  {
    if level == DocumentLevel && selected.Some? {
      FilterMeaning(docs, SameDayFn(selected.value));
    }
  }

  /** `groups`: nothing at the document level, otherwise the grouping of all documents under the selected period. */
  method CurrentGroups(docs: seq<Document>, level: DrillLevel, selected: Option<Date>) returns (groups: seq<Group>)
    ensures IsGrouping(docs, level, selected, groups)
    ensures level == DocumentLevel ==> groups == []
  {
    if level == DocumentLevel {
      groups := [];
      FilterDropsAll(docs, SurvivesFn(DocumentLevel, selected));
    } else {
      groups := GroupDocumentsByPeriod(docs, level, selected);
    }
  }

  // ---------------------------------------------------------------- drilling into a group

  /** The documents a predicate selects are a group's documents when it agrees with "survives and lies in the group's period". */
  lemma SelectsGroup(docs: seq<Document>, level: DrillLevel, filter: Option<Date>, g: Group, next: Document -> bool)
    requires forall i :: 0 <= i < |docs| ==>
               next(docs[i]) == (Survives(level, filter, docs[i].date) && PeriodStart(SpanOf(level), docs[i].date) == g.date)
    ensures Filter(docs, next) == Members(Survivors(docs, level, filter), StartFn(level), g.date)
  {
    FilterTwice(docs, SurvivesFn(level, filter), HasKey(StartFn(level), g.date), next);
  }

  /**
   * Drilling into a year, month or day group shows exactly that group's
   * documents one level down, in the same order; so the next level's groups
   * partition the group just opened.
   */
  lemma DrillShowsGroup(docs: seq<Document>, level: DrillLevel, filter: Option<Date>, g: Group)
    requires GroupFor(docs, level, filter, g)
    ensures level == Year ==> Survivors(docs, NextLevel(level), Some(g.date)) == g.documents
    ensures level == Month ==> Survivors(docs, NextLevel(level), Some(g.date)) == g.documents
    ensures level == Day ==> IndividualDocs(docs, NextLevel(level), Some(g.date)) == g.documents
  {
    var d0 := g.documents[0];
    MemberFacts(docs, level, filter, g.date, d0);
    FilterMeaning(docs, SurvivesFn(level, filter));
    if level == Year || level == Month {
      forall i | 0 <= i < |docs|
        ensures SurvivesFn(NextLevel(level), Some(g.date))(docs[i])
                == (Survives(level, filter, docs[i].date) && PeriodStart(SpanOf(level), docs[i].date) == g.date)
      {
        assert Survives(level, filter, d0.date);
      }
      SelectsGroup(docs, level, filter, g, SurvivesFn(NextLevel(level), Some(g.date)));
    } else if level == Day {
      forall i | 0 <= i < |docs|
        ensures SameDayFn(g.date)(docs[i])
                == (Survives(level, filter, docs[i].date) && PeriodStart(SpanOf(level), docs[i].date) == g.date)
      {
        assert Survives(level, filter, d0.date);
      }
      SelectsGroup(docs, level, filter, g, SameDayFn(g.date));
    }
  }

  /**
   * Drilling into a week group shows every document of that week, not only
   * those of the selected month the week group held: the day level filters by
   * week alone, so a week that straddles two months shows both months' days.
   */
  lemma DrillIntoWeek(docs: seq<Document>, filter: Option<Date>, g: Group)
    requires GroupFor(docs, Week, filter, g)
    ensures Survivors(docs, Day, Some(g.date)) == Members(docs, StartFn(Week), g.date)
    ensures forall x :: x in g.documents ==> x in Survivors(docs, Day, Some(g.date))
  {
    PeriodStartOf(Weeks(DrillWeekStart), g.date);
    FilterAgree(docs, SurvivesFn(Day, Some(g.date)), HasKey(StartFn(Week), g.date));
    MembersMeaning(docs, StartFn(Week), g.date);
    FilterMeaning(docs, SurvivesFn(Week, filter));
    forall x | x in g.documents
      ensures x in Members(docs, StartFn(Week), g.date)
    {
      MemberFacts(docs, Week, filter, g.date, x);
    }
  }

  // ---------------------------------------------------------------- the hook's state

  class Navigator {
    var documents: seq<Document>
    var drillLevel: DrillLevel
    var selectedPeriod: Option<Date>
    var breadcrumbs: seq<Breadcrumb>

    function State(): NavState
      reads this
    {
      NavState(drillLevel, selectedPeriod, breadcrumbs)
    }

    constructor(docs: seq<Document>)
      ensures documents == docs && State() == Initial
    {
      documents := docs;
      drillLevel := Month;
      selectedPeriod := None;
      breadcrumbs := [Root];
    }

    method DrillDown(g: Group)
      modifies this
      ensures State() == AfterDrill(old(State()), g)
      ensures documents == old(documents)
    {
      var nextLevel := NextLevel(drillLevel);
      drillLevel := nextLevel;
      selectedPeriod := Some(g.date);
      breadcrumbs := breadcrumbs + [Breadcrumb(nextLevel, Some(g.date), g.displayName)];
    }

    method BreadcrumbClick(index: int) returns (ok: bool)
      modifies this
      ensures ok <==> AfterClick(old(State()), index).Some?
      ensures ok ==> Some(State()) == AfterClick(old(State()), index)
      ensures !ok ==> State() == old(State())
      ensures documents == old(documents)
    {
      if 0 <= index < |breadcrumbs| {
        var target := breadcrumbs[index];
        drillLevel := target.level;
        selectedPeriod := target.period;
        breadcrumbs := breadcrumbs[..index + 1];
        ok := true;
      } else {
        ok := false;
      }
    }

    method Groups() returns (groups: seq<Group>)
      ensures IsGrouping(documents, drillLevel, selectedPeriod, groups)
      ensures drillLevel == DocumentLevel ==> groups == []
    {
      groups := CurrentGroups(documents, drillLevel, selectedPeriod);
    }

    function Individual(): seq<Document>
      reads this
    {
      IndividualDocs(documents, drillLevel, selectedPeriod)
    }
  }
}
