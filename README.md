# Medical document vault — timeline, list and export logic in Dafny

This project models the logic of a browser demo for a personal medical-document
vault. The app keeps a flat list of documents. Each document has an id, a title,
a doctor, a calendar date and one of four types (lab, prescription, report, scan).
The model covers:

- **Drill-down timeline** (`src/hooks/useTimeline.ts`, copied into
  `src/components/TimelineDrillView.tsx`). `groupDocumentsByPeriod` groups
  documents by year, month, week or day. It can first keep only the documents in
  the selected period of the next coarser level. It returns the groups newest
  first. A navigator holds the drill level, the selected period and a breadcrumb
  trail. Drill-down adds one breadcrumb; a breadcrumb click cuts the trail back.
  At the document level the view lists the documents of the selected day.
- **Dense time segments** (`src/lib/timelineUtils.ts`). Every year, month,
  Monday-start week or day from the earliest to the latest document is listed
  oldest first, empty ones included, each with the documents dated inside it.
- **Document list** (`src/pages/Documents.tsx`, repeated in
  `src/components/Dashboard.tsx`). A search and type filter, a stable sort on
  date, title or doctor in either direction, and the header click that picks
  the sort.
- **Export dialog** (`src/components/PDFExportDialog.tsx`). The selection of
  document ids, and the y cursor that lays out the report pages.
- **Chat** (`src/components/Chat.tsx`). Canned replies picked by the first key
  found in the lower-cased question, a message list that only grows, and a
  typing flag.
- **Month timeline** (`src/components/Timeline.tsx`). Events are bucketed by
  year and month in one pass.
- **Timeline dot** (`src/components/timeline/TimelineDot.tsx`). The dot size
  clamp and the count badge.

## Layout

| file | module | contents |
|---|---|---|
| `wrappers.dfy` | `Wrappers` | `Option` |
| `calendar.dfy` | `Calendar` | valid calendar days, day numbers, weekdays, `startOf…`/`endOf…`/`isSame…`, periods (`Span`) |
| `formatting.dfy` | `Formatting` | the date-fns key and label patterns, key injectivity, lower-casing, `includes` |
| `buckets.dfy` | `Buckets` | `Filter`, buckets by key, first-occurrence keys, partition sizes |
| `documents.dfy` | `Documents` | the document record and the sample list |
| `grouping.dfy` | `Grouping` | `groupDocumentsByPeriod` |
| `navigator.dfy` | `Navigation` | drill level, selected period and breadcrumbs |
| `drill_view.dfy` | `DrillView` | the per-type counts shown under a drill-down group |
| `segments.dfy` | `Segments` | `groupDocumentsByTimeSegments` |
| `document_list.dfy` | `DocumentList` | filter, sort and `handleSort` of both list pages |
| `pdf_export.dfy` | `PdfExport` | selection set and page layout |
| `chat.dfy` | `Chat` | canned replies and the conversation |
| `month_timeline.dfy` | `MonthTimeline` | the month reduce of the timeline page |
| `timeline_dot.dfy` | `TimelineDot` | dot size and badge |

## Modelling choices

- A document date is a calendar day `(year, month, day)`. `DayNumber` counts days
  from 0000-01-01 in the proleptic Gregorian calendar. It orders days as
  `getTime()` orders local midnights. The weekday numbering is that of
  `getDay()`, with 0 for Sunday.
- One period type, `Span` (years, months, weeks with a start day, days), serves
  both groupings. The key fact is `Calendar.InPeriod`: a day lies between a period
  start `s` and that period's end exactly when its period start is `s`.
- The week start is a parameter. The drill-down code calls `startOfWeek` and
  `isSameWeek` without options, so weeks start on Sunday there
  (`Grouping.DrillWeekStart`, the en-US default). The segment code asks for
  Monday (`Segments.SegmentWeekStart`). The two are kept apart.
- Period keys are real strings built as date-fns prints `yyyy`, `yyyy-MM` and
  `yyyy-MM-dd`. They are proved injective, so grouping by key is grouping by
  period.
- `groupDocumentsByPeriod` fills a dictionary inside a loop. It is a method
  (`Grouping.GroupDocumentsByPeriod`) that keeps the dictionary and its key
  insertion order, followed by the stable sort. Its postcondition `IsGrouping`
  describes the result without saying how it is computed, and
  `Grouping.GroupingUnique` shows that this description fixes the result.
- The navigator's handlers are the methods of the class `Navigation.Navigator`.
  Each is specified by a pure transition on `NavState` (`AfterDrill`,
  `AfterClick`), and the lemmas are stated about those transitions.
- `TimelineDrillView.tsx` lines 30-160 repeat `useTimeline.ts` almost
  verbatim. Both are modelled by `Grouping` and `Navigation`. `DrillView` holds
  only what the component adds: the per-type breakdown.
- `Documents.tsx` and `Dashboard.tsx` share one filter/sort pipeline
  (`DocumentList.Shown`) and one class for their list state
  (`DocumentList.ListPage`). The dashboard's four mock documents, written as
  `"Dec 15, 2024"` and so on, are the first four of the shared sample list.
- `Array.prototype.sort` is stable. It is modelled by a stable insertion sort,
  and `DocumentList.SortUnique` shows that every stable sorted permutation is
  that same list.
- A chat reply arrives on a timer. It is modelled as a second step,
  `DeliverReply`. Questions waiting for their reply form a queue, because the
  Enter key can send again while the bot is typing. The reply answers the text
  that was sent, not the text in the input box when the timer fires.
- The bot's texts (the greeting, the five canned replies and the fallback) are
  the values of `Chat.BotText`. `Chat.Wording` gives their exact wording. A bot
  message carries such a value, and `Message.Text` is its wording, so the
  lemmas about which reply a question gets compare these values rather than
  the long strings.

Behaviour of the code that the model keeps:

- Drill-down at the `document` level does not fail. The successor of `document`
  is `document` again (`useTimeline.ts:69-72`), so another breadcrumb is added.
- A breadcrumb click with an index outside the trail reads `level` of
  `undefined` and throws before any state is set. The model returns `ok == false`
  and leaves the state unchanged.
- The drill-down week is the one `startOfWeek` and `isSameWeek` give without
  options: it starts on Sunday.
- Drilling into a week group filters the day level by week only
  (`useTimeline.ts:41`). A week that straddles two months therefore shows the
  days of both months, not only those of the month drilled into
  (`Navigation.DrillIntoWeek`).
- The drill-down view prints the badge text as written at
  `TimelineDrillView.tsx:248` (`DrillView.Badges`); the corrected text of the
  finding below is `DrillView.CorrectedBadges`.
- Blank chat input is what `trim` strips: the white space and line terminators
  of sections 12.2 and 12.3 of ECMA-262 (`Chat.IsSpace`), so an ideographic
  space alone is not sent (`Chat.WideSpacesIgnored`).

## Model

| member | source | states |
|---|---|---|
| `Calendar.DayNumberOrder` | src/hooks/useTimeline.ts:64 | day numbers order days as the calendar does and tell different days apart, so sorting by `getTime()` is sorting by day |
| `Calendar.StartOfWeekFacts` | src/hooks/useTimeline.ts:36-38 | the start of a day's week falls on the chosen week-start day, at most six days before the day |
| `Calendar.WithinWeek` | src/lib/timelineUtils.ts:76-80 | every day up to six days after a week start has that week start as its start of week |
| `Calendar.InPeriod` | src/lib/timelineUtils.ts:56-60 | a day lies between a period start and that period's end exactly when its period start is that start |
| `Calendar.PeriodStartFacts` | src/hooks/useTimeline.ts:26-44 | the period start of a day is a period start, not after the day, and its period reaches the day |
| `Calendar.NextPeriodFacts` | src/lib/timelineUtils.ts:53 | consecutive periods follow each other with no gap and no overlap |
| `Calendar.PeriodStartMonotone` | src/lib/timelineUtils.ts:23-25 | taking period starts keeps the order of days |
| `Formatting.YearKeyInjective` | src/hooks/useTimeline.ts:24 | equal `yyyy` keys mean equal years |
| `Formatting.MonthKeyInjective` | src/hooks/useTimeline.ts:30 | equal `yyyy-MM` keys mean the same year and month |
| `Formatting.DayKeyInjective` | src/hooks/useTimeline.ts:42 | equal `yyyy-MM-dd` keys mean the same day |
| `Formatting.YearMonthIndexKeyMeaning` | src/components/Timeline.tsx:91 | two days share the `year-monthIndex` key exactly when they are in the same calendar month |
| `Formatting.ContainsMeaning` | src/pages/Documents.tsx:81-82 | `includes` holds exactly when the part occurs at some position of the text |
| `Grouping.GroupDocumentsByPeriod` | src/hooks/useTimeline.ts:12-65 | the result is one group per period that has a surviving document, newest first; each group holds exactly that period's surviving documents in input order, and its count is their number |
| `Grouping.FillTable` | src/hooks/useTimeline.ts:16-62 | after the pass, the dictionary has one entry per key of the surviving documents, holding that key's documents in order with the name and start set by the first of them |
| `Grouping.Visit` | src/hooks/useTimeline.ts:22-61 | a document that fails the filter leaves the dictionary unchanged; one that passes joins its key's entry, creating it if the key is new |
| `Grouping.KeyOfMeaning` | src/hooks/useTimeline.ts:22-45 | two dates share a group key exactly when they fall in the same period |
| `Grouping.FilterIsCoarserPeriod` | src/hooks/useTimeline.ts:28-41 | with a selected period, month keeps same-year documents, week keeps same-month, day keeps same-week, year keeps all, and document keeps none |
| `Grouping.NoFilterKeepsAll` | src/hooks/useTimeline.ts:107 | without a selected period no document is dropped at the year, month, week or day level |
| `Grouping.SortNewestFirstFacts` | src/hooks/useTimeline.ts:64 | the group sort returns a permutation of its input, newest period first |
| `Grouping.GroupingUnique` | src/hooks/useTimeline.ts:12-65 | only one list of groups meets the description of a grouping |
| `Grouping.GroupingPartition` | src/components/TimelineDrillView.tsx:66-115 | every surviving document is in the group of its own period and in no other, and groups hold only surviving documents of their period |
| `Grouping.GroupingCountsTotal` | src/hooks/useTimeline.ts:60-61 | the counts of all groups add up to the number of surviving documents |
| `Grouping.DocumentLevelGroupsNothing` | src/hooks/useTimeline.ts:46-47 | at the document level the grouping is empty |
| `Grouping.SampleMonthGrouping` | src/lib/documents.ts:3-74 | the sample documents at the month level give 2024-12 (4), 2024-11 (3), 2024-10 (2) and 2024-09 (1), in that order, labelled "December 2024" and so on |
| `Navigation.NextLevel` | src/hooks/useTimeline.ts:69-72 | a drill-down goes one level deeper; document is the deepest level and maps to itself; year is never the next level |
| `Navigation.InitialConsistent` | src/hooks/useTimeline.ts:6-10 | the initial state is the month level, no selected period and the root breadcrumb alone, and it is consistent |
| `Navigation.DrillConsistent` | src/hooks/useTimeline.ts:68-87 | a drill-down keeps the earlier breadcrumbs, adds exactly one, selects the group's start date and keeps the last breadcrumb equal to the current level and period |
| `Navigation.ClickConsistent` | src/hooks/useTimeline.ts:89-94 | a click succeeds exactly for an index inside the trail, keeps the state consistent and cuts the trail to its first index+1 entries |
| `Navigation.LevelFollowsTrail` | src/hooks/useTimeline.ts:82-86 | in a reachable state the level is fixed by the trail length (month, week, day, then document), so the year level is never reached |
| `Navigation.ClickLastChangesNothing` | src/components/TimelineDrillView.tsx:142-147 | clicking the last breadcrumb changes nothing |
| `Navigation.DrillAllKeepsTrail` | src/hooks/useTimeline.ts:82-86 | after n drill-downs the trail has n more breadcrumbs and starts with the old trail |
| `Navigation.ClickUndoesDrills` | src/hooks/useTimeline.ts:89-94 | clicking the breadcrumb that was last before any number of drill-downs restores the earlier state exactly |
| `Navigation.DrillThenRoot` | src/components/TimelineDrillView.tsx:120-147 | a drill-down followed by a click on the root breadcrumb restores the initial state |
| `Navigation.IndividualDocsMeaning` | src/hooks/useTimeline.ts:96-114 | outside the document level no individual documents are listed; at it they are all documents without a selected period, and exactly those dated on the selected day with one |
| `Navigation.CurrentGroups` | src/hooks/useTimeline.ts:106-109 | the visible groups are the grouping of all documents at the current level under the selected period, and empty at the document level |
| `Navigation.DrillShowsGroup` | src/hooks/useTimeline.ts:28-44 | drilling into a year, month or day group shows exactly that group's documents one level down, in the same order |
| `Navigation.DrillIntoWeek` | src/hooks/useTimeline.ts:34-41 | drilling into a week group shows every document of that week, a superset of the group's own documents |
| `Navigation.Navigator.constructor` | src/components/TimelineDrillView.tsx:30-34 | a new navigator is in the initial state |
| `Navigation.Navigator.DrillDown` | src/hooks/useTimeline.ts:68-87 | the new state is the drill-down transition of the old one |
| `Navigation.Navigator.BreadcrumbClick` | src/hooks/useTimeline.ts:89-94 | for an index inside the trail the new state is the click transition; otherwise nothing changes and the call reports failure |
| `Navigation.Navigator.Groups` | src/components/TimelineDrillView.tsx:159 | the groups returned are the grouping of the navigator's documents in its current state |
| `DrillView.BadgesOfMeaning` | src/components/TimelineDrillView.tsx:238-240 | each badge counts the group's documents of its type, and every type present gets a badge |
| `DrillView.BadgesOfText` | src/components/TimelineDrillView.tsx:248 | each badge prints its count and its type's lower-cased label, with an "s" whenever the count is not 1, as the view writes it |
| `DrillView.BadgeExactlyForPresentTypes` | src/components/TimelineDrillView.tsx:239-240 | a type has a badge exactly when some document of the group has that type |
| `DrillView.BadgesCountAll` | src/components/TimelineDrillView.tsx:238-240 | the badge counts add up to the group's number of documents |
| `DrillView.LabBadgeAsWritten` | src/components/TimelineDrillView.tsx:248 | as written, one lab document reads "1 lab results" and two read "2 lab resultss" |
| `DrillView.BadgeTextPlural` | src/components/TimelineDrillView.tsx:248 | the corrected badge text ends in "s" exactly when the count is not 1 |
| `DrillView.OneLabBadge` | src/components/TimelineDrillView.tsx:238-250 | a group with one lab document shows the single badge "1 lab results" |
| `DrillView.CorrectedBadgesPlural` | src/components/TimelineDrillView.tsx:248 | the corrected badges keep the kinds and counts of the shown ones, and each text ends in "s" exactly when its count is not 1 |
| `Segments.EarliestDate` | src/lib/timelineUtils.ts:23-24 | the range start is a document date not after any other |
| `Segments.LatestDate` | src/lib/timelineUtils.ts:23-25 | the range end is a document date not before any other |
| `Segments.NoDocumentsNoSegments` | src/lib/timelineUtils.ts:20 | no documents give no segments |
| `Segments.StartsFromMembers` | src/lib/timelineUtils.ts:93 | the period enumeration holds exactly the period starts from the first period to the range end |
| `Segments.StartsFromAscending` | src/lib/timelineUtils.ts:53 | the period enumeration is strictly ascending |
| `Segments.YearStartsFromMonths` | src/lib/timelineUtils.ts:31-33 | the month starts mapped to their years and deduplicated at first occurrence are each year of the range once, ascending |
| `Segments.SegmentStartsInOrder` | src/lib/timelineUtils.ts:29-112 | for an ordered range, every zoom lists the period starts from the period of the range start to the range end |
| `Segments.SegmentsSpanRange` | src/lib/timelineUtils.ts:53-69 | the segments run from the period of the range start to the period of the range end, oldest first, each followed by the next period, empty ones included |
| `Segments.SegmentAtMeaning` | src/lib/timelineUtils.ts:75-81 | a segment holds exactly the documents of its period, and its count is their number |
| `Segments.SegmentsHoldTheirPeriods` | src/lib/timelineUtils.ts:37-47 | for an ordered range every segment holds exactly the documents dated in its period and counts them |
| `Segments.SegmentKeyInjective` | src/lib/timelineUtils.ts:64 | different segment starts have different period keys |
| `Segments.SegmentKeysDistinct` | src/lib/timelineUtils.ts:84 | no two segments of one result share a period key |
| `Segments.DocumentInOneSegmentOnly` | src/lib/timelineUtils.ts:77-80 | for an ordered range no document is in two segments |
| `Segments.EveryDocumentInOneSegment` | src/lib/timelineUtils.ts:95-107 | with the default range every document is in exactly one segment |
| `DocumentList.EmptyTermMatches` | src/components/Dashboard.tsx:119-120 | an empty search term matches every document |
| `DocumentList.CompareTransitive` | src/pages/Documents.tsx:86-101 | the comparator is transitive in both directions and for every field |
| `DocumentList.CompareZero` | src/pages/Documents.tsx:89-98 | the comparator calls two documents equal exactly when their sort values are equal |
| `DocumentList.SortDocsSorted` | src/components/Dashboard.tsx:124-140 | the sort orders its output by the comparator |
| `DocumentList.SortDocsStable` | src/pages/Documents.tsx:86-102 | documents with the same sort value keep their input order |
| `DocumentList.SortUnique` | src/components/Dashboard.tsx:124 | every sorted, stable permutation of the input is the modelled sort's result |
| `DocumentList.DescendingReversesAscending` | src/pages/Documents.tsx:101 | when no two documents share a sort value, descending order is ascending order reversed |
| `DocumentList.ShownMeaning` | src/pages/Documents.tsx:79-102 | the list holds exactly the documents matching the search and the type filter, each as often as in the input, sorted and stable |
| `DocumentList.EmptySearchShowsAll` | src/pages/Documents.tsx:81-83 | an empty search with every type selected shows a reordering of all documents |
| `DocumentList.SortedShownUnchanged` | src/components/Dashboard.tsx:117-140 | a list already in sort order is shown unchanged when nothing is filtered out |
| `DocumentList.OpensInShippedOrder` | src/pages/Documents.tsx:17-19 | the Documents page opens with the sample documents in their shipped, newest-first order |
| `DocumentList.NextSortMeaning` | src/pages/Documents.tsx:70-77 | a click sorts by the clicked field, ascending on a new field, and flips the order on the same field |
| `DocumentList.ClickTwice` | src/components/Dashboard.tsx:108-115 | two clicks on the current field restore the sort; two on a new field sort it descending |
| `DocumentList.ListPage.constructor` | src/pages/Documents.tsx:14-19 | a page opens with no search term, sorted by date descending, all types shown |
| `DocumentList.ListPage.HandleSort` | src/components/Dashboard.tsx:108-115 | the new sort is the header-click transition of the old one; search and filter are unchanged |
| `DocumentList.ListPage.SetSearchTerm` | src/pages/Documents.tsx:14 | the search term changes and the sort and filter do not |
| `DocumentList.ListPage.SetFilterType` | src/pages/Documents.tsx:19 | the type filter changes and the sort and search do not |
| `DocumentList.ListPage.ExportList` | src/pages/Documents.tsx:176-180 | the export dialog gets the whole list, which contains everything shown |
| `DocumentList.Dashboard.constructor` | src/components/Dashboard.tsx:47-54 | the dashboard opens in list view over its four mock documents, sorted by date descending, all types shown |
| `DocumentList.Dashboard.SetView` | src/components/Dashboard.tsx:51 | the view switches to the chosen one |
| `PdfExport.ToggleFlips` | src/components/PDFExportDialog.tsx:31-37 | a toggle flips the membership of its id and of no other id |
| `PdfExport.ToggleTwice` | src/components/PDFExportDialog.tsx:32-36 | toggling twice restores the selected ids, and the very sequence when the id was not selected |
| `PdfExport.ToggleKeepsSelectionOk` | src/components/PDFExportDialog.tsx:32-45 | a toggle keeps the selection free of repeats and of foreign ids |
| `PdfExport.SelectAllOk` | src/components/PDFExportDialog.tsx:39-45 | select-all and clear-all give selections without repeats when the ids are distinct |
| `PdfExport.SelectAllExportsAll` | src/components/PDFExportDialog.tsx:39-52 | with everything selected every document is exported; with nothing selected none is |
| `PdfExport.ExportedMeaning` | src/components/PDFExportDialog.tsx:52 | a document is exported exactly when it is one of the dialog's documents and its id is selected; the report holds no document more often than the dialog does |
| `PdfExport.EnabledIffSomethingToExport` | src/components/PDFExportDialog.tsx:189 | outside an export the button is enabled exactly when the report would hold a document |
| `PdfExport.SampleIdsDistinct` | src/lib/documents.ts:3-74 | the sample documents carry distinct ids |
| `PdfExport.HeaderBounds` | src/components/PDFExportDialog.tsx:62-88 | every document header lies between y 30 and y 250 |
| `PdfExport.LayoutClosedForm` | src/components/PDFExportDialog.tsx:62-88 | the first page takes headers at 80, 131, 182, 233 and every later page at 30, 81, 132, 183, 234 |
| `PdfExport.PageCount` | src/components/PDFExportDialog.tsx:65-67 | the report has one page for up to four documents and 1 + n/5 pages for more |
| `PdfExport.LayOut` | src/components/PDFExportDialog.tsx:62-89 | the loop places each header at the cursor rule's y on the right page, and every y is in bounds |
| `PdfExport.ExportDialog.constructor` | src/components/PDFExportDialog.tsx:25-28 | the dialog opens with every document selected and no export running |
| `PdfExport.ExportDialog.Toggle` | src/components/PDFExportDialog.tsx:31-37 | the selection becomes the toggle of the old one |
| `PdfExport.ExportDialog.SelectAll` | src/components/PDFExportDialog.tsx:39-41 | the selection becomes every document id |
| `PdfExport.ExportDialog.DeselectAll` | src/components/PDFExportDialog.tsx:43-45 | the selection becomes empty |
| `PdfExport.ExportDialog.Generate` | src/components/PDFExportDialog.tsx:47-108 | the report lays out exactly the selected documents in order; the export flag is down afterwards whether the library fails or not |
| `Chat.GenerateResponse` | src/components/Chat.tsx:57-67 | the loop returns the answer of the first key in table order found in the lower-cased message, or the fallback when no key is found |
| `Chat.FirstMatchMeaning` | src/components/Chat.tsx:60-64 | the lookup finds the answer of entry k exactly when k's key occurs and no earlier key does, and nothing when no key occurs |
| `Chat.NoKeyFallback` | src/components/Chat.tsx:66 | a question containing no key gets the fallback |
| `Chat.MatchAt` | src/components/Chat.tsx:60-64 | when key k occurs in the lower-cased question and no earlier key does, the question gets entry k's answer |
| `Chat.DrJohnsonSuggestionFallsBack` | src/components/Chat.tsx:18 | the suggestion about "Dr. Johnson" does not contain the key "dr johnson" and gets the fallback |
| `Chat.ShownSuggestionsAnswered` | src/components/Chat.tsx:14-25 | the three suggestions shown get the answers of the first three keys |
| `Chat.InitialConsistent` | src/components/Chat.tsx:36-45 | the chat opens with exactly the greeting, empty input and no typing |
| `Chat.SendConsistent` | src/components/Chat.tsx:69-81 | blank input changes nothing; otherwise one user message is added and every question is answered or waiting |
| `Chat.WideSpacesIgnored` | src/components/Chat.tsx:70 | input made only of non-ASCII white space that `trim` strips (an ideographic space; a line separator and an em space) is not sent, and the send button stays disabled |
| `Chat.ReplyConsistent` | src/components/Chat.tsx:84-94 | the delayed reply keeps every question answered or waiting |
| `Chat.Exchange` | src/components/Chat.tsx:72-94 | a question and its reply add exactly the original text and its canned reply, and leave the input empty and typing off |
| `Chat.SuggestionsOnlyAtStart` | src/components/Chat.tsx:183-187 | the first three suggestions show only while the greeting is the only message |
| `Chat.SendEnabledIffSendAdds` | src/components/Chat.tsx:213 | outside a reply the send button is enabled exactly when sending would add a message |
| `Chat.ChatWindow.constructor` | src/components/Chat.tsx:36-45 | a new chat is in the initial state |
| `Chat.ChatWindow.SetInput` | src/components/Chat.tsx:206 | only the input text changes |
| `Chat.ChatWindow.SuggestedQuestion` | src/components/Chat.tsx:97-99 | a suggestion is put in the input box and not sent |
| `Chat.ChatWindow.SendMessage` | src/components/Chat.tsx:69-82 | the new state is the send transition of the old one |
| `Chat.ChatWindow.DeliverReply` | src/components/Chat.tsx:84-94 | the new state is the reply transition of the old one |
| `Chat.ChatWindow.KeyPress` | src/components/Chat.tsx:101-106 | Enter without Shift sends; any other key changes nothing |
| `MonthTimeline.GroupEvents` | src/components/Timeline.tsx:89-102 | the keys come out in first-occurrence order, one group per key, each holding its events in input order, labelled by its first event |
| `MonthTimeline.SameGroupIffSameMonth` | src/components/Timeline.tsx:90-91 | two events share a group exactly when they fall in the same calendar month |
| `MonthTimeline.EachEventInOneGroup` | src/components/Timeline.tsx:93-100 | every event is in its own month's group and in no other, and keys are listed once |
| `MonthTimeline.TotalEvents` | src/components/Timeline.tsx:89-102 | the groups hold as many events between them as there are input events |
| `MonthTimeline.LabelFitsEveryEvent` | src/components/Timeline.tsx:93-98 | the label set by a group's first event is the month label of every event in the group |
| `MonthTimeline.ShownInFirstOccurrenceOrder` | src/components/Timeline.tsx:127 | groups are listed in the order their months first occur |
| `MonthTimeline.SampleGroups` | src/components/Timeline.tsx:4-59 | the shipped events form December 2024 with five events, then November 2024 with one |
| `TimelineDot.DotSize` | src/components/timeline/TimelineDot.tsx:26 | the dot size always lies between 12 and 24 |
| `TimelineDot.DotFor` | src/components/timeline/TimelineDot.tsx:18-27 | zero documents give the placeholder; otherwise the dot has `DotSize(n)`, within its bounds, and the badge shows n exactly when n > 1 |
| `TimelineDot.DotSizeSteps` | src/components/timeline/TimelineDot.tsx:26 | one document gives 12, four or more give 24, and in between each document adds 4 |
| `TimelineDot.DotSizeMonotone` | src/components/timeline/TimelineDot.tsx:26 | more documents never give a smaller dot |
| `TimelineDot.DotSizeTellsSmallCounts` | src/components/timeline/TimelineDot.tsx:26 | between one and four documents, different counts give different sizes |

## Findings

| source | as written | input that shows it | evidently intended | confidence | as-written member | corrected member |
|---|---|---|---|---|---|---|
| src/components/TimelineDrillView.tsx:248 | the badge appends "s" to the lower-cased type label when the count is not 1, but the lab label "Lab Results" is already plural | a group with one lab document reads "1 lab results"; with two it reads "2 lab resultss" | a singular noun with "s" added only for counts other than 1 ("1 lab result", "2 lab results") | medium, not executed | `DrillView.LabBadgeAsWritten` | `DrillView.BadgeTextPlural` |

## Left out

- Rendering: JSX, icons, CSS classes, tooltips, the hover flag of the timeline dot, scrolling, toasts and navigation are presentation only.
- Upload simulation in both list pages: it runs on `Math.random`, `setInterval` and `setTimeout`.
- The PDF library: `jsPDF` drawing calls and `pdf.save` are foreign calls. Only the y cursor, the header text and the page count are kept. A library failure is a parameter of `Generate`.
- Date parsing and time zones: documents carry a calendar day. `new Date("2024-12-15")` is UTC midnight while date-fns works in local time, so a day can shift in zones west of UTC. That shift is not modelled, and neither is an unparseable date string.
- Years up to 0 are printed here with a minus sign; date-fns prints era years there. No document of the app is dated before year 1.
- `localeCompare` is modelled as the order of character codes, a total order. Locale collation rules are not modelled.
- `toLowerCase` is modelled for ASCII letters only; other letters are left unchanged.
- Message ids and timestamps in the chat come from `Date.now()` and are left out. The reply delay is a separate step, not a time.
- `useMemo` caching in the hook: groups are recomputed on every query.
- Explicit `startDate`/`endDate` arguments of `groupDocumentsByTimeSegments`: no caller passes them. A reversed explicit range follows date-fns 3 and lists the periods newest first. The range lemmas assume a range in order, which always holds for the default range.
- `src/pages/Login.tsx`, `TimelineView.tsx`, `HorizontalTimelineView.tsx` and the other presentation components are not part of this model.
