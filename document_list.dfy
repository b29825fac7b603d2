/**
 * The document list of the Documents page and of the dashboard: a search and
 * type filter followed by a sort on date, title or doctor, ascending or
 * descending, and the header click that chooses the sort.
 *
 * `Array.prototype.sort` is stable, so the list is modelled by a stable
 * insertion sort (`SortDocs`); `SortUnique` shows that any sorted, stable
 * permutation of the filtered list is that very sequence, so the choice of
 * algorithm does not show in the result.
 */
module DocumentList {
  import opened Calendar
  import opened Buckets
  import opened Formatting
  import opened Documents

  datatype SortField = ByDate | ByTitle | ByDoctor
  datatype SortOrder = Asc | Desc
  datatype TypeFilter = AllTypes | OnlyType(kind: DocType)

  /** The sort choice: the `sortBy` and `sortOrder` state of a page. */
  datatype SortState = SortState(field: SortField, order: SortOrder)

  /** Both pages open sorted by date, newest first, with every type shown. */
  const InitialSort := SortState(ByDate, Desc)

  // ---------------------------------------------------------------- filter

  /** The title or the doctor contains the search term, ignoring case. */
  predicate MatchesSearch(doc: Document, term: string) {
    Contains(Lower(doc.title), Lower(term)) || Contains(Lower(doc.doctor), Lower(term))
  }

  predicate MatchesType(doc: Document, filter: TypeFilter) {
    match filter
    case AllTypes => true
    case OnlyType(k) => doc.kind == k
  }

  function KeepFn(term: string, filter: TypeFilter): Document -> bool {
    (doc: Document) => MatchesSearch(doc, term) && MatchesType(doc, filter)
  }

  /** An empty search term matches every document. */
  lemma EmptyTermMatches(doc: Document)
    ensures MatchesSearch(doc, "")
  {
    assert Lower(doc.title)[..0] == Lower("");
  }

  // ---------------------------------------------------------------- comparator

  /** `localeCompare`, as the order of character codes. */
  function TextCompare(s: string, t: string): (r: int)
    ensures -1 <= r <= 1
  {
    if s == [] && t == [] then 0
    else if s == [] then -1
    else if t == [] then 1
    else if s[0] < t[0] then -1
    else if t[0] < s[0] then 1
    else TextCompare(s[1..], t[1..])
  }

  /** The comparison of the chosen field: a day difference for dates, a text comparison otherwise. */
  function Comparison(field: SortField, a: Document, b: Document): int {
    if field == ByDate then DayNumber(a.date) - DayNumber(b.date)
    else TextCompare(TextKey(field, a), TextKey(field, b))
  }

  /** The text a title or doctor sort compares. */
  function TextKey(field: SortField, doc: Document): string {
    if field == ByTitle then doc.title else doc.doctor
  }

  /** The comparator handed to `sort`: the field comparison, negated for a descending order. */
  function Compare(s: SortState, a: Document, b: Document): int {
    if s.order == Asc then Comparison(s.field, a, b) else -Comparison(s.field, a, b)
  }

  /** The value a document is sorted by. */
  datatype SortValue = DayValue(day: Date) | TextValue(text: string)

  function KeyOf(field: SortField, doc: Document): SortValue {
    match field
    case ByDate => DayValue(doc.date)
    case ByTitle => TextValue(doc.title)
    case ByDoctor => TextValue(doc.doctor)
  }

  function KeyFn(field: SortField): Document -> SortValue {
    (doc: Document) => KeyOf(field, doc)
  }

  lemma {:induction false} TextCompareFlip(s: string, t: string)
    ensures TextCompare(s, t) == -TextCompare(t, s)
  {
    if s != [] && t != [] && s[0] == t[0] {
      TextCompareFlip(s[1..], t[1..]);
    }
  }

  lemma {:induction false} TextCompareZero(s: string, t: string)
    ensures TextCompare(s, t) == 0 <==> s == t
  {
    if s != [] && t != [] && s[0] == t[0] {
      TextCompareZero(s[1..], t[1..]);
      assert s == [s[0]] + s[1..] && t == [t[0]] + t[1..];
    }
  }

  lemma {:induction false} TextCompareTransitive(s: string, t: string, u: string)
    requires TextCompare(s, t) <= 0 && TextCompare(t, u) <= 0
    ensures TextCompare(s, u) <= 0
  {
    if s != [] && t != [] && u != [] && s[0] == t[0] && t[0] == u[0] {
      TextCompareTransitive(s[1..], t[1..], u[1..]);
    }
  }

  /** Swapping the operands negates the comparator. */
  lemma CompareFlip(s: SortState, a: Document, b: Document)
    ensures Compare(s, a, b) == -Compare(s, b, a)
  {
    if s.field != ByDate {
      TextCompareFlip(TextKey(s.field, a), TextKey(s.field, b));
    }
  }

  /** The comparator calls two documents equal exactly when their sort values are equal. */
  lemma CompareZero(s: SortState, a: Document, b: Document)
    ensures Compare(s, a, b) == 0 <==> KeyOf(s.field, a) == KeyOf(s.field, b)
  {
    if s.field == ByDate {
      DayNumberOrder(a.date, b.date);
    } else {
      TextCompareZero(TextKey(s.field, a), TextKey(s.field, b));
    }
  }

  lemma CompareTransitive(s: SortState, a: Document, b: Document, c: Document)
    requires Compare(s, a, b) <= 0 && Compare(s, b, c) <= 0
    ensures Compare(s, a, c) <= 0
  {
    if s.field != ByDate {
      var ta, tb, tc := TextKey(s.field, a), TextKey(s.field, b), TextKey(s.field, c);
      if s.order == Asc {
        TextCompareTransitive(ta, tb, tc);
      } else {
        TextCompareFlip(ta, tb);
        TextCompareFlip(tb, tc);
        TextCompareFlip(ta, tc);
        TextCompareTransitive(tc, tb, ta);
      }
    }
  }

  /** The descending comparator is the ascending one with its operands swapped. */
  lemma DescendingIsSwapped(field: SortField, a: Document, b: Document)
    ensures Compare(SortState(field, Desc), a, b) == Compare(SortState(field, Asc), b, a)
  {
    CompareFlip(SortState(field, Asc), a, b);
  }

  // ---------------------------------------------------------------- the sort

  /** Every earlier document compares at most equal to every later one. */
  predicate Sorted(s: SortState, r: seq<Document>) {
    forall i, j :: 0 <= i < j < |r| ==> Compare(s, r[i], r[j]) <= 0
  }

  /** Documents with the same sort value are in the same relative order in `r` as in `xs`. */
  ghost predicate Stable(field: SortField, r: seq<Document>, xs: seq<Document>) {
    forall v :: Members(r, KeyFn(field), v) == Members(xs, KeyFn(field), v)
  }

  /** `x` put after every document of `sorted` that does not compare greater than it. */
  function Insert(s: SortState, sorted: seq<Document>, x: Document): (r: seq<Document>)
    ensures multiset(r) == multiset(sorted) + multiset{x}
    decreases |sorted|
  {
    if sorted == [] || Compare(s, sorted[|sorted| - 1], x) <= 0 then sorted + [x]
    else
      var init := sorted[..|sorted| - 1];
      assert sorted == init + [sorted[|sorted| - 1]];
      Insert(s, init, x) + [sorted[|sorted| - 1]]
  }

  /** The stable sort of `xs` under the comparator of `s`. */
  function SortDocs(s: SortState, xs: seq<Document>): (r: seq<Document>)
    ensures multiset(r) == multiset(xs)
    decreases |xs|
  {
    if xs == [] then []
    else
      var init := xs[..|xs| - 1];
      assert xs == init + [xs[|xs| - 1]];
      Insert(s, SortDocs(s, init), xs[|xs| - 1])
  }

  lemma {:induction false} InsertSorted(s: SortState, sorted: seq<Document>, x: Document)
    requires Sorted(s, sorted)
    ensures Sorted(s, Insert(s, sorted, x))
    decreases |sorted|
  {
    if sorted == [] {
      SnocSorted(s, sorted, x);
    } else {
      var init, last := sorted[..|sorted| - 1], sorted[|sorted| - 1];
      assert sorted == init + [last];
      if Compare(s, last, x) <= 0 {
        forall i | 0 <= i < |sorted|
          ensures Compare(s, sorted[i], x) <= 0
        {
          if i < |sorted| - 1 {
            CompareTransitive(s, sorted[i], last, x);
          }
        }
        SnocSorted(s, sorted, x);
      } else {
        SortedInit(s, init, last);
        InsertSorted(s, init, x);
        InsertPasses(s, init, last, x);
        FrontBelowLast(s, init, last, x);
        SnocSorted(s, Insert(s, init, x), last);
      }
    }
  }

  /** Appending a document no earlier one compares greater than keeps a sequence sorted. */
  lemma SnocSorted(s: SortState, front: seq<Document>, y: Document)
    requires Sorted(s, front)
    requires forall i :: 0 <= i < |front| ==> Compare(s, front[i], y) <= 0
    ensures Sorted(s, front + [y])
  {
  }

  /** Whatever `x` is inserted into, the last element that compares greater than `x` stays above it all. */
  lemma FrontBelowLast(s: SortState, init: seq<Document>, last: Document, x: Document)
    requires Sorted(s, init + [last]) && Compare(s, last, x) > 0
    ensures forall i :: 0 <= i < |Insert(s, init, x)| ==> Compare(s, Insert(s, init, x)[i], last) <= 0
  {
    var front := Insert(s, init, x);
    forall i | 0 <= i < |front|
      ensures Compare(s, front[i], last) <= 0
    {
      var y := front[i];
      assert y in multiset(init) + multiset{x};
      if y in init {
        var k :| 0 <= k < |init| && init[k] == y;
        var whole := init + [last];
        assert whole[k] == y && whole[|init|] == last;
      } else {
        assert y == x;
        CompareFlip(s, last, x);
      }
    }
  }

  /** The documents of sort value `v` that `x` adds: itself, when that is its value. */
  function Own(field: SortField, x: Document, v: SortValue): seq<Document> {
    if KeyOf(field, x) == v then [x] else []
  }

  /** Inserting `x` appends it to the documents of its own sort value and leaves the others in place. */
  lemma {:induction false} InsertStable(s: SortState, sorted: seq<Document>, x: Document, v: SortValue)
    ensures Members(Insert(s, sorted, x), KeyFn(s.field), v) == Members(sorted, KeyFn(s.field), v) + Own(s.field, x, v)
    decreases |sorted|
  {
    if sorted == [] || Compare(s, sorted[|sorted| - 1], x) <= 0 {
      MembersSnoc(sorted, x, KeyFn(s.field), v);
    } else {
      var init, last := sorted[..|sorted| - 1], sorted[|sorted| - 1];
      assert sorted == init + [last];
      InsertStable(s, init, x, v);
      InsertPastLast(s, init, last, x, v);
    }
  }

  /** One step of `InsertStable`: `x` passes a last element that compares greater, so has another value. */
  lemma InsertPastLast(s: SortState, init: seq<Document>, last: Document, x: Document, v: SortValue)
    requires Compare(s, last, x) > 0
    requires Members(Insert(s, init, x), KeyFn(s.field), v) == Members(init, KeyFn(s.field), v) + Own(s.field, x, v)
    ensures Members(Insert(s, init + [last], x), KeyFn(s.field), v) == Members(init + [last], KeyFn(s.field), v) + Own(s.field, x, v)
  {
    InsertPasses(s, init, last, x);
    GreaterDiffers(s, last, x);
    SwapPast(s.field, Insert(s, init, x), init, x, last, v);
  }

  /** When the last element compares greater than `x`, `x` goes into the rest and the last element stays last. */
  lemma InsertPasses(s: SortState, init: seq<Document>, last: Document, x: Document)
    requires Compare(s, last, x) > 0
    ensures Insert(s, init + [last], x) == Insert(s, init, x) + [last]
  {
    assert (init + [last])[..|init|] == init;
  }

  /** Documents that compare unequal have different sort values. */
  lemma GreaterDiffers(s: SortState, a: Document, b: Document)
    requires Compare(s, a, b) > 0
    ensures KeyOf(s.field, a) != KeyOf(s.field, b)
  {
    CompareZero(s, a, b);
  }

  /** Appending `last` after `x`'s own documents, or before them, is the same when their values differ. */
  lemma SwapPast(field: SortField, front: seq<Document>, init: seq<Document>, x: Document, last: Document, v: SortValue)
    requires KeyOf(field, x) != KeyOf(field, last)
    requires Members(front, KeyFn(field), v) == Members(init, KeyFn(field), v) + Own(field, x, v)
    ensures Members(front + [last], KeyFn(field), v) == Members(init + [last], KeyFn(field), v) + Own(field, x, v)
  {
    var key := KeyFn(field);
    var xs, ls := Own(field, x, v), Own(field, last, v);
    MembersSnoc(front, last, key, v);
    MembersSnoc(init, last, key, v);
    assert xs == [] || ls == [];
    calc {
      Members(front + [last], key, v);
      Members(front, key, v) + ls;
      Members(init, key, v) + xs + ls;
      Members(init, key, v) + ls + xs;
      Members(init + [last], key, v) + xs;
    }
  }

  /** The sort orders its output by the comparator. */
  lemma {:induction false} SortDocsSorted(s: SortState, xs: seq<Document>)
    ensures Sorted(s, SortDocs(s, xs))
    decreases |xs|
  {
    if xs != [] {
      SortDocsSorted(s, xs[..|xs| - 1]);
      InsertSorted(s, SortDocs(s, xs[..|xs| - 1]), xs[|xs| - 1]);
    }
  }

  /** The sort is stable: documents with equal sort values keep their input order. */
  lemma {:induction false} SortDocsStable(s: SortState, xs: seq<Document>)
    ensures Stable(s.field, SortDocs(s, xs), xs)
    decreases |xs|
  {
    if xs != [] {
      var init, last := xs[..|xs| - 1], xs[|xs| - 1];
      assert xs == init + [last];
      SortDocsStable(s, init);
      forall v
        ensures Members(SortDocs(s, xs), KeyFn(s.field), v) == Members(xs, KeyFn(s.field), v)
      {
        InsertStable(s, SortDocs(s, init), last, v);
        MembersSnoc(init, last, KeyFn(s.field), v);
        assert Own(s.field, last, v) == if KeyFn(s.field)(last) == v then [last] else [];
      }
    }
  }

  /** The last element of a sequence is the last of the documents sharing its sort value. */
  lemma LastMember(a: seq<Document>, key: Document -> SortValue)
    requires a != []
    ensures var m := Members(a, key, key(a[|a| - 1])); m != [] && m[|m| - 1] == a[|a| - 1]
  {
    var init, x := a[..|a| - 1], a[|a| - 1];
    assert a == init + [x];
    MembersSnoc(init, x, key, key(x));
  }

  /** Nothing in a sorted sequence compares greater than its last element. */
  lemma LastIsGreatest(s: SortState, a: seq<Document>, d: Document)
    requires Sorted(s, a) && d in a
    ensures Compare(s, d, a[|a| - 1]) <= 0
  {
    var k :| 0 <= k < |a| && a[k] == d;
    if k == |a| - 1 {
      CompareZero(s, d, d);
    }
  }

  /** The last element of a sorted, stable permutation is fixed by the input alone. */
  lemma SameLast(s: SortState, a: seq<Document>, b: seq<Document>)
    requires multiset(a) == multiset(b) && a != []
    requires Sorted(s, a) && Sorted(s, b)
    requires forall v :: Members(a, KeyFn(s.field), v) == Members(b, KeyFn(s.field), v)
    ensures |b| == |a| && b[|b| - 1] == a[|a| - 1]
  {
    assert |b| == |multiset(b)| == |multiset(a)| == |a|;
    var x, y := a[|a| - 1], b[|b| - 1];
    assert x in multiset(b) && y in multiset(a);
    LastIsGreatest(s, b, x);
    LastIsGreatest(s, a, y);
    CompareFlip(s, x, y);
    CompareZero(s, x, y);
    LastMember(a, KeyFn(s.field));
    LastMember(b, KeyFn(s.field));
    assert Members(a, KeyFn(s.field), KeyOf(s.field, x)) == Members(b, KeyFn(s.field), KeyOf(s.field, y));
  }

  /** Two sorted sequences with the same elements and the same order within each sort value are equal. */
  lemma {:induction false} SortedStableEqual(s: SortState, a: seq<Document>, b: seq<Document>)
    requires multiset(a) == multiset(b)
    requires Sorted(s, a) && Sorted(s, b)
    requires forall v :: Members(a, KeyFn(s.field), v) == Members(b, KeyFn(s.field), v)
    ensures a == b
    decreases |a|
  {
    if a == [] {
      assert |b| == |multiset(b)| == 0;
    } else {
      SameLast(s, a, b);
      var x := a[|a| - 1];
      var ai, bi := a[..|a| - 1], b[..|b| - 1];
      assert a == ai + [x] && b == bi + [x];
      PeelLast(s, ai, bi, x);
      SortedStableEqual(s, ai, bi);
    }
  }

  /** Without their common last element, the two sequences still meet the conditions. */
  lemma PeelLast(s: SortState, ai: seq<Document>, bi: seq<Document>, x: Document)
    requires multiset(ai + [x]) == multiset(bi + [x])
    requires Sorted(s, ai + [x]) && Sorted(s, bi + [x])
    requires forall v :: Members(ai + [x], KeyFn(s.field), v) == Members(bi + [x], KeyFn(s.field), v)
    ensures multiset(ai) == multiset(bi)
    ensures Sorted(s, ai) && Sorted(s, bi)
    ensures forall v :: Members(ai, KeyFn(s.field), v) == Members(bi, KeyFn(s.field), v)
  {
    DropLast(KeyFn(s.field), ai, bi, x);
    assert multiset(ai) == multiset(ai + [x]) - multiset{x};
    assert multiset(bi) == multiset(bi + [x]) - multiset{x};
    SortedInit(s, ai, x);
    SortedInit(s, bi, x);
  }

  lemma SortedInit(s: SortState, init: seq<Document>, x: Document)
    requires Sorted(s, init + [x])
    ensures Sorted(s, init)
  {
    assert forall i :: 0 <= i < |init| ==> (init + [x])[i] == init[i];
  }

  /** Equal buckets after appending the same element mean equal buckets before. */
  lemma DropLast(key: Document -> SortValue, ai: seq<Document>, bi: seq<Document>, x: Document)
    requires forall v :: Members(ai + [x], key, v) == Members(bi + [x], key, v)
    ensures forall v :: Members(ai, key, v) == Members(bi, key, v)
  {
    forall v
      ensures Members(ai, key, v) == Members(bi, key, v)
    {
      MembersSnoc(ai, x, key, v);
      MembersSnoc(bi, x, key, v);
      var t := if key(x) == v then [x] else [];
      var ma, mb := Members(ai, key, v), Members(bi, key, v);
      assert ma + t == mb + t;
      assert ma == (ma + t)[..|ma|] && mb == (mb + t)[..|mb|];
    }
  }

  /**
   * Any sorted, stable permutation of `xs` is `SortDocs(s, xs)`: whatever stable
   * algorithm the runtime uses, it returns this sequence.
   */
  lemma SortUnique(s: SortState, xs: seq<Document>, r: seq<Document>)
    requires multiset(r) == multiset(xs)
    requires Sorted(s, r) && Stable(s.field, r, xs)
    ensures r == SortDocs(s, xs)
  {
    SortDocsSorted(s, xs);
    SortDocsStable(s, xs);
    SortedStableEqual(s, r, SortDocs(s, xs));
  }

  /** No two documents of `xs` share a sort value. */
  predicate DistinctValues(field: SortField, xs: seq<Document>) {
    forall i, j :: 0 <= i < j < |xs| ==> KeyOf(field, xs[i]) != KeyOf(field, xs[j])
  }

  /**
   * When no two documents share a sort value, the descending list is the
   * ascending list reversed. With ties it is not: documents with equal values
   * keep their input order in both directions.
   */
  lemma DescendingReversesAscending(field: SortField, xs: seq<Document>)
    requires DistinctValues(field, xs)
    ensures SortDocs(SortState(field, Desc), xs) == Reverse(SortDocs(SortState(field, Asc), xs))
  {
    var up := SortDocs(SortState(field, Asc), xs);
    var r := Reverse(up);
    ReversePermutes(up);
    SortDocsSorted(SortState(field, Asc), xs);
    forall i, j | 0 <= i < j < |r|
      ensures Compare(SortState(field, Desc), r[i], r[j]) <= 0
    {
      DescendingIsSwapped(field, r[i], r[j]);
    }
    SortDocsStable(SortState(field, Asc), xs);
    forall v
      ensures Members(r, KeyFn(field), v) == Members(xs, KeyFn(field), v)
    {
      FilterReverse(up, HasKey(KeyFn(field), v));
      MembersAtMostOne(xs, KeyFn(field), v);
      var m := Members(xs, KeyFn(field), v);
      assert Reverse(m) == m;
    }
    SortUnique(SortState(field, Desc), xs, r);
  }

  // ---------------------------------------------------------------- the page list

  /** `filteredAndSortedDocuments` */
  function Shown(docs: seq<Document>, term: string, filter: TypeFilter, sort: SortState): seq<Document> {
    SortDocs(sort, Filter(docs, KeepFn(term, filter)))
  }

  /**
   * The list holds exactly the documents matching the search and the type filter,
   * each as often as in the input, sorted by the comparator, with equal sort
   * values in input order.
   */
  lemma ShownMeaning(docs: seq<Document>, term: string, filter: TypeFilter, sort: SortState)
    ensures var r := Shown(docs, term, filter, sort);
      && (forall d :: d in r <==> d in docs && MatchesSearch(d, term) && MatchesType(d, filter))
      && multiset(r) == multiset(Filter(docs, KeepFn(term, filter)))
      && Sorted(sort, r)
      && Stable(sort.field, r, Filter(docs, KeepFn(term, filter)))
  {
    var kept := Filter(docs, KeepFn(term, filter));
    FilterMeaning(docs, KeepFn(term, filter));
    SortDocsSorted(sort, kept);
    SortDocsStable(sort, kept);
    forall d
      ensures d in SortDocs(sort, kept) <==> d in kept
    {
      assert d in multiset(SortDocs(sort, kept)) <==> d in multiset(kept);
    }
  }

  /** With no search term and every type selected, the list is a reordering of all documents. */
  lemma EmptySearchShowsAll(docs: seq<Document>, sort: SortState)
    ensures multiset(Shown(docs, "", AllTypes, sort)) == multiset(docs)
  {
    forall i | 0 <= i < |docs|
      ensures KeepFn("", AllTypes)(docs[i])
    {
      EmptyTermMatches(docs[i]);
    }
    FilterKeepsAll(docs, KeepFn("", AllTypes));
  }

  /** A list already in sort order is shown unchanged when nothing is filtered out. */
  lemma SortedShownUnchanged(docs: seq<Document>, sort: SortState)
    requires Sorted(sort, docs)
    ensures Shown(docs, "", AllTypes, sort) == docs
  {
    forall i | 0 <= i < |docs|
      ensures KeepFn("", AllTypes)(docs[i])
    {
      EmptyTermMatches(docs[i]);
    }
    FilterKeepsAll(docs, KeepFn("", AllTypes));
    SortUnique(sort, docs, docs);
  }

  /** The sample documents are shipped newest first, so the Documents page opens showing them in that order. */
  lemma OpensInShippedOrder()
    ensures Shown(SampleDocuments(), "", AllTypes, InitialSort) == SampleDocuments()
  {
    SamplesNewestFirst();
    SortedShownUnchanged(SampleDocuments(), InitialSort);
  }

  lemma SamplesNewestFirst()
    ensures Sorted(InitialSort, SampleDocuments())
  {
    var docs := SampleDocuments();
    var days := seq(|docs|, i requires 0 <= i < |docs| => DayNumber(docs[i].date));
    SampleDatesGoDown();
    DescendingChain(days);
    forall i, j | 0 <= i < j < |docs|
      ensures Compare(InitialSort, docs[i], docs[j]) <= 0
    {
      assert days[j] < days[i];
    }
  }

  /** Each sample document is dated before the one listed above it. */
  lemma SampleDatesGoDown()
    ensures forall i :: 0 <= i < |SampleDocuments()| - 1 ==>
              DayNumber(SampleDocuments()[i + 1].date) < DayNumber(SampleDocuments()[i].date)
  {
    var docs := SampleDocuments();
    DayNumberOrder(docs[1].date, docs[0].date);
    DayNumberOrder(docs[2].date, docs[1].date);
    DayNumberOrder(docs[3].date, docs[2].date);
    DayNumberOrder(docs[4].date, docs[3].date);
    DayNumberOrder(docs[5].date, docs[4].date);
    DayNumberOrder(docs[6].date, docs[5].date);
    DayNumberOrder(docs[7].date, docs[6].date);
    DayNumberOrder(docs[8].date, docs[7].date);
    DayNumberOrder(docs[9].date, docs[8].date);
  }

  /** A sequence whose every step goes down is strictly decreasing throughout. */
  lemma {:induction false} DescendingChain(days: seq<int>)
    requires forall i :: 0 <= i < |days| - 1 ==> days[i + 1] < days[i]
    ensures forall i, j :: 0 <= i < j < |days| ==> days[j] < days[i]
    decreases |days|
  {
    if |days| > 1 {
      DescendingChain(days[1..]);
      forall j | 0 < j < |days|
        ensures days[j] < days[0]
      {
        assert days[j] == days[1..][j - 1];
        if j > 1 {
          assert days[1..][0] == days[1];
        }
      }
    }
  }

  // ---------------------------------------------------------------- header clicks

  function Flip(order: SortOrder): SortOrder {
    if order == Asc then Desc else Asc
  }

  /** `handleSort` */
  function NextSort(s: SortState, field: SortField): SortState {
    if s.field == field then s.(order := Flip(s.order)) else SortState(field, Asc)
  }

  /**
   * A click sorts by the clicked field; a first click on a field sorts it
   * ascending, and a second click on the same field turns the order round.
   */
  lemma NextSortMeaning(s: SortState, field: SortField)
    ensures NextSort(s, field).field == field
    ensures NextSort(s, field).order == Asc <==> s.field != field || s.order == Desc
    ensures NextSort(NextSort(s, field), field).order != NextSort(s, field).order
  {
  }

  /** Clicking the current field twice restores the sort; clicking a new field twice sorts it descending. */
  lemma ClickTwice(s: SortState, field: SortField)
    ensures NextSort(NextSort(s, field), field) == if s.field == field then s else SortState(field, Desc)
  {
  }

  // ---------------------------------------------------------------- the pages

  /** The list state of the Documents page, and of the dashboard, which repeats it. */
  class ListPage {
    const documents: seq<Document>
    var searchTerm: string
    var sortBy: SortField
    var sortOrder: SortOrder
    var filterType: TypeFilter

    function Sort(): SortState
      reads this
    {
      SortState(sortBy, sortOrder)
    }

    constructor (documents: seq<Document>)
      ensures this.documents == documents
      ensures searchTerm == "" && Sort() == InitialSort && filterType == AllTypes
    {
      this.documents := documents;
      searchTerm := "";
      sortBy, sortOrder := ByDate, Desc;
      filterType := AllTypes;
    }

    method HandleSort(field: SortField)
      modifies this
      ensures Sort() == NextSort(old(Sort()), field)
      ensures searchTerm == old(searchTerm) && filterType == old(filterType)
    {
      if sortBy == field {
        sortOrder := if sortOrder == Asc then Desc else Asc;
      } else {
        sortBy := field;
        sortOrder := Asc;
      }
    }

    method SetSearchTerm(term: string)
      modifies this
      ensures searchTerm == term && Sort() == old(Sort()) && filterType == old(filterType)
    {
      searchTerm := term;
    }

    method SetFilterType(filter: TypeFilter)
      modifies this
      ensures filterType == filter && Sort() == old(Sort()) && searchTerm == old(searchTerm)
    {
      filterType := filter;
    }

    /** The list the page renders (and the dashboard's timeline receives). */
    function ShownList(): seq<Document>
      reads this
    {
      Shown(documents, searchTerm, filterType, Sort())
    }

    /** The export dialog gets the whole document list: everything shown, and whatever the filters hide. */
    function ExportList(): (r: seq<Document>)
      reads this
      ensures multiset(ShownList()) <= multiset(r)
    {
      ShownMeaning(documents, searchTerm, filterType, Sort());
      FilterSubset(documents, KeepFn(searchTerm, filterType));
      documents
    }
  }

  datatype View = ListView | TimelineView

  /** The dashboard's own four sample documents, the first four of the shared list. */
  function DashboardDocuments(): seq<Document> {
    SampleDocuments()[..4]
  }

  /** The dashboard: the same list state, and a switch between the list and timeline views of that list. */
  class Dashboard {
    const list: ListPage
    var view: View

    constructor ()
      ensures view == ListView && fresh(list)
      ensures list.documents == DashboardDocuments()
      ensures list.searchTerm == "" && list.Sort() == InitialSort && list.filterType == AllTypes
    {
      list := new ListPage(DashboardDocuments());
      view := ListView;
    }

    method SetView(v: View)
      modifies this
      ensures view == v
    {
      view := v;
    }
  }
}
