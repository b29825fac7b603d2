/**
 * The export dialog: a selection of document ids, edited one checkbox at a
 * time or all at once, and the layout of the report, where a y cursor walks
 * down the page and starts a new page when it passes the bottom line.
 */
module PdfExport {
  import opened Buckets
  import opened Formatting
  import opened Documents

  // ---------------------------------------------------------------- selection

  /** `handleDocumentToggle`: drop `id` when selected, otherwise append it. */
  function ToggleId(selected: seq<string>, id: string): seq<string> {
    if id in selected then Filter(selected, (x: string) => x != id) else selected + [id]
  }

  function IsSelectedFn(selected: seq<string>): Document -> bool {
    (doc: Document) => doc.id in selected
  }

  /** `selectedDocs`: the dialog's documents whose id is selected, in their order. */
  function ExportedDocs(docs: seq<Document>, selected: seq<string>): seq<Document> {
    Filter(docs, IsSelectedFn(selected))
  }

  /** The selection holds each id once, and only ids of the dialog's documents. */
  predicate SelectionOk(docs: seq<Document>, selected: seq<string>) {
    Distinct(selected) && forall x :: x in selected ==> x in Ids(docs)
  }

  /** The export button's `disabled`. */
  predicate ExportDisabled(selected: seq<string>, exporting: bool) {
    |selected| == 0 || exporting
  }

  /** A toggle flips the membership of `id` and of nothing else. */
  lemma ToggleFlips(selected: seq<string>, id: string)
    ensures id in ToggleId(selected, id) <==> id !in selected
    ensures forall x :: x != id ==> (x in ToggleId(selected, id) <==> x in selected)
  {
    FilterMeaning(selected, (x: string) => x != id);
  }

  /**
   * Toggling twice restores which ids are selected; the sequence itself comes back
   * when the id was not selected, and otherwise has the id moved to the end.
   */
  lemma ToggleTwice(selected: seq<string>, id: string)
    ensures forall x :: x in ToggleId(ToggleId(selected, id), id) <==> x in selected
    ensures id !in selected ==> ToggleId(ToggleId(selected, id), id) == selected
  {
    ToggleFlips(selected, id);
    ToggleFlips(ToggleId(selected, id), id);
    if id !in selected {
      var p := (x: string) => x != id;
      FilterSnoc(selected, id, p);
      FilterKeepsAll(selected, p);
    }
  }

  /** A toggle on one of the dialog's ids keeps the selection free of repeats and of foreign ids. */
  lemma ToggleKeepsSelectionOk(docs: seq<Document>, selected: seq<string>, id: string)
    requires SelectionOk(docs, selected) && id in Ids(docs)
    ensures SelectionOk(docs, ToggleId(selected, id))
  {
    ToggleFlips(selected, id);
    if id in selected {
      FilterDistinct(selected, (x: string) => x != id);
    } else {
      DistinctSnoc(selected, id);
    }
  }

  /** Select-all gives a valid selection when the documents' ids are distinct, and clear-all always does. */
  lemma SelectAllOk(docs: seq<Document>)
    requires Distinct(Ids(docs))
    ensures SelectionOk(docs, Ids(docs)) && SelectionOk(docs, [])
  {
  }

  /** With everything selected the report holds every document; with nothing selected it is empty. */
  lemma SelectAllExportsAll(docs: seq<Document>)
    ensures ExportedDocs(docs, Ids(docs)) == docs
    ensures ExportedDocs(docs, []) == []
  {
    forall i | 0 <= i < |docs|
      ensures IsSelectedFn(Ids(docs))(docs[i])
    {
      assert Ids(docs)[i] == docs[i].id;
    }
    FilterKeepsAll(docs, IsSelectedFn(Ids(docs)));
    FilterDropsAll(docs, IsSelectedFn([]));
  }

  /** A document is exported exactly when it is one of the dialog's documents and its id is selected. */
  lemma ExportedMeaning(docs: seq<Document>, selected: seq<string>)
    ensures forall d :: d in ExportedDocs(docs, selected) <==> d in docs && d.id in selected
    ensures multiset(ExportedDocs(docs, selected)) <= multiset(docs)
  {
    FilterMeaning(docs, IsSelectedFn(selected));
    FilterSubset(docs, IsSelectedFn(selected));
  }

  /** Outside an export, the button is enabled exactly when the report would hold a document. */
  lemma EnabledIffSomethingToExport(docs: seq<Document>, selected: seq<string>)
    requires SelectionOk(docs, selected)
    ensures !ExportDisabled(selected, false) <==> ExportedDocs(docs, selected) != []
  {
    ExportedMeaning(docs, selected);
    if selected != [] {
      var x := selected[0];
      assert x in Ids(docs);
      var i :| 0 <= i < |docs| && Ids(docs)[i] == x;
      assert docs[i] in ExportedDocs(docs, selected);
    }
    if ExportedDocs(docs, selected) != [] {
      var d := ExportedDocs(docs, selected)[0];
      assert d.id in selected;
    }
  }

  /** The sample documents carry distinct ids. */
  lemma SampleIdsDistinct()
    ensures Distinct(Ids(SampleDocuments()))
  {
    var ids := Ids(SampleDocuments());
    assert ids == ["1", "2", "3", "4", "5", "6", "7", "8", "9", "10"];
  }

  // ---------------------------------------------------------------- layout

  /** The cursor of the first document header, the top margin of a new page and the bottom line. */
  const FirstHeaderY := 80
  const TopMargin := 30
  const BottomLine := 250

  /** The cursor after a document: header, doctor, date and type lines, then the separator. */
  function Advance(y: int): int {
    y + 10 + 8 + 8 + 15 + 10
  }

  /** Where the header lands when the cursor stands at `y`: past the bottom line it moves to a new page. */
  function Place(y: int): int {
    if y > BottomLine then TopMargin else y
  }

  /** The cursor before document `i`, and the y of its header. */
  function Cursor(i: nat): int
    decreases i, 0
  {
    if i == 0 then FirstHeaderY else Advance(HeaderY(i - 1))
  }

  function HeaderY(i: nat): int
    decreases i, 1
  {
    Place(Cursor(i))
  }

  /** The pages added for the first `n` documents. */
  function PagesAdded(n: nat): nat {
    if n == 0 then 0 else PagesAdded(n - 1) + (if Cursor(n - 1) > BottomLine then 1 else 0)
  }

  /** One line of the report: a document header. */
  datatype Header = Header(page: nat, y: int, text: string)

  /** The header text: the position in the report, counting from 1, and the title. */
  function HeaderText(index: nat, doc: Document): string {
    Digits(index + 1) + ". " + doc.title
  }

  /** Every header lies between the top margin and the bottom line. */
  lemma {:induction false} HeaderBounds(i: nat)
    ensures TopMargin <= HeaderY(i) <= BottomLine
  {
    if i > 0 {
      HeaderBounds(i - 1);
    }
  }

  /**
   * The first page takes four documents, at 80, 131, 182 and 233; every later
   * page takes five, at 30, 81, 132, 183 and 234.
   */
  lemma {:induction false} LayoutClosedForm(i: nat)
    ensures HeaderY(i) == if i < 4 then 80 + 51 * i else 30 + 51 * ((i - 4) % 5)
    ensures PagesAdded(i + 1) == if i < 4 then 0 else 1 + (i - 4) / 5
  {
    if i > 0 {
      LayoutClosedForm(i - 1);
    }
  }

  /** The report has one page for up to four documents and one more for each further five or part of five. */
  lemma PageCount(n: nat)
    ensures 1 + PagesAdded(n) == if n <= 4 then 1 else 1 + n / 5
  {
    if n > 0 {
      LayoutClosedForm(n - 1);
    }
  }

  /** The layout loop of `generatePDF`, over the selected documents. */
  method LayOut(docs: seq<Document>) returns (headers: seq<Header>, pages: nat)
    ensures |headers| == |docs|
    ensures forall i :: 0 <= i < |docs| ==>
              headers[i] == Header(1 + PagesAdded(i + 1), HeaderY(i), HeaderText(i, docs[i]))
    ensures pages == 1 + PagesAdded(|docs|)
    ensures forall i :: 0 <= i < |docs| ==> TopMargin <= headers[i].y <= BottomLine
  {
    headers, pages := [], 1;
    var y := FirstHeaderY;
    var i := 0;
    while i < |docs|
      invariant 0 <= i <= |docs| && |headers| == i
      invariant y == Cursor(i) && pages == 1 + PagesAdded(i)
      invariant forall k :: 0 <= k < i ==>
                  headers[k] == Header(1 + PagesAdded(k + 1), HeaderY(k), HeaderText(k, docs[k]))
      invariant forall k :: 0 <= k < i ==> TopMargin <= headers[k].y <= BottomLine
    {
      if y > BottomLine {
        pages := pages + 1;
        y := TopMargin;
      }
      HeaderBounds(i);
      headers := headers + [Header(pages, y, HeaderText(i, docs[i]))];
      y := y + 10;
      y := y + 8;
      y := y + 8;
      y := y + 15;
      y := y + 10;
      i := i + 1;
    }
  }

  // ---------------------------------------------------------------- the dialog

  class ExportDialog {
    const documents: seq<Document>
    var selected: seq<string>
    var isExporting: bool

    /** Every document starts selected. */
    constructor (documents: seq<Document>)
      ensures this.documents == documents && selected == Ids(documents) && !isExporting
    {
      this.documents := documents;
      selected := Ids(documents);
      isExporting := false;
    }

    method Toggle(id: string)
      modifies this
      ensures selected == ToggleId(old(selected), id) && isExporting == old(isExporting)
    {
      if id in selected {
        selected := Filter(selected, (x: string) => x != id);
      } else {
        selected := selected + [id];
      }
    }

    method SelectAll()
      modifies this
      ensures selected == Ids(documents) && isExporting == old(isExporting)
    {
      selected := Ids(documents);
    }

    method DeselectAll()
      modifies this
      ensures selected == [] && isExporting == old(isExporting)
    {
      selected := [];
    }

    /**
     * `generatePDF`: the headers of the selected documents and the page count.
     * `libraryFails` stands for the PDF library throwing, in which case nothing
     * is saved. Either way the export flag is raised for the duration and is
     * down again afterwards.
     */
    method Generate(libraryFails: bool) returns (saved: bool, headers: seq<Header>, pages: nat)
      modifies this
      ensures selected == old(selected) && !isExporting
      ensures saved <==> !libraryFails
      ensures !saved ==> headers == [] && pages == 0
      ensures saved ==> |headers| == |ExportedDocs(documents, selected)|
      ensures saved ==> forall i :: 0 <= i < |headers| ==>
                headers[i].text == HeaderText(i, ExportedDocs(documents, selected)[i])
                && headers[i].y == HeaderY(i) && headers[i].page == 1 + PagesAdded(i + 1)
      ensures saved ==> pages == 1 + PagesAdded(|headers|)
    {
      isExporting := true;
      if libraryFails {
        saved, headers, pages := false, [], 0;
      } else {
        var chosen := ExportedDocs(documents, selected);
        headers, pages := LayOut(chosen);
        saved := true;
      }
      isExporting := false;
    }
  }
}
