/**
 * The per-type breakdown printed under each group of the drill-down view: one
 * badge per document type present in the group, in the fixed order lab,
 * prescription, report, scan, each with the number of the group's documents of
 * that type.
 */
module DrillView {
  import opened Buckets
  import opened Formatting
  import opened Documents

  /** The types the breakdown walks through, in its order. */
  const AllKinds: seq<DocType> := [Lab, Prescription, Report, Scan]

  function KindFn(): Document -> DocType {
    (doc: Document) => doc.kind
  }

  /** The number of documents of type `k`. */
  function KindCount(docs: seq<Document>, k: DocType): nat {
    |Members(docs, KindFn(), k)|
  }

  /** `getTypeLabel` */
  function TypeLabel(k: DocType): string {
    match k
    case Lab => "Lab Results"
    case Prescription => "Prescription"
    case Report => "Medical Report"
    case Scan => "Medical Scan"
  }

  /** The singular noun of each type, lower case. */
  function TypeNoun(k: DocType): string {
    match k
    case Lab => "lab result"
    case Prescription => "prescription"
    case Report => "medical report"
    case Scan => "medical scan"
  }

  /** The badge text as the view prints it: the lower-cased label, with an 's' unless the count is 1. */
  function BadgeTextAsWritten(k: DocType, count: nat): string {
    Digits(count) + " " + Lower(TypeLabel(k)) + (if count != 1 then "s" else "")
  }

  /** The badge text with the plural marker added to a singular noun. */
  function BadgeText(k: DocType, count: nat): string {
    Digits(count) + " " + TypeNoun(k) + (if count != 1 then "s" else "")
  }

  datatype Badge = Badge(kind: DocType, count: nat, text: string)

  /** The badges of the types in `kinds` that occur in `docs`. */
  function BadgesOf(docs: seq<Document>, kinds: seq<DocType>): seq<Badge> {
    if kinds == [] then []
    else
      var c := KindCount(docs, kinds[0]);
      (if c == 0 then [] else [Badge(kinds[0], c, BadgeTextAsWritten(kinds[0], c))]) + BadgesOf(docs, kinds[1..])
  }

  function Badges(docs: seq<Document>): seq<Badge> {
    BadgesOf(docs, AllKinds)
  }

  /** The same badges with the corrected text, a singular noun with the plural marker. */
  function CorrectedBadges(docs: seq<Document>): seq<Badge> {
    var bs := Badges(docs);
    seq(|bs|, i requires 0 <= i < |bs| => bs[i].(text := BadgeText(bs[i].kind, bs[i].count)))
  }

  function SumBadges(bs: seq<Badge>): nat {
    if bs == [] then 0 else bs[0].count + SumBadges(bs[1..])
  }

  // ---------------------------------------------------------------- properties

  lemma {:induction false} SumBadgesOf(docs: seq<Document>, kinds: seq<DocType>)
    ensures SumBadges(BadgesOf(docs, kinds)) == TotalSize(docs, KindFn(), kinds)
  {
    if kinds != [] {
      SumBadgesOf(docs, kinds[1..]);
      var c := KindCount(docs, kinds[0]);
      var head := if c == 0 then [] else [Badge(kinds[0], c, BadgeTextAsWritten(kinds[0], c))];
      SumBadgesAppend(head, BadgesOf(docs, kinds[1..]));
    }
  }

  lemma {:induction false} SumBadgesAppend(a: seq<Badge>, b: seq<Badge>)
    ensures SumBadges(a + b) == SumBadges(a) + SumBadges(b)
  {
    if a != [] {
      SumBadgesAppend(a[1..], b);
      assert (a + b)[0] == a[0] && (a + b)[1..] == a[1..] + b;
    } else {
      assert a + b == b;
    }
  }

  /** The badge counts of a group add up to its number of documents: every document has one of the four types. */
  lemma BadgesCountAll(docs: seq<Document>)
    ensures SumBadges(Badges(docs)) == |docs|
  {
    SumBadgesOf(docs, AllKinds);
    forall i | 0 <= i < |docs|
      ensures KindFn()(docs[i]) in AllKinds
    {
      match docs[i].kind
      case Lab =>
      case Prescription =>
      case Report =>
      case Scan =>
    }
    PartitionSize(docs, KindFn(), AllKinds);
  }

  /** A badge counts the documents of its type, and only types that occur get one. */
  lemma {:induction false} BadgesOfMeaning(docs: seq<Document>, kinds: seq<DocType>)
    ensures forall b :: b in BadgesOf(docs, kinds) ==>
              b.kind in kinds && b.count >= 1 && b.count == KindCount(docs, b.kind)
    ensures forall k :: k in kinds && KindCount(docs, k) > 0 ==> exists b :: b in BadgesOf(docs, kinds) && b.kind == k
  {
    if kinds != [] {
      BadgesOfMeaning(docs, kinds[1..]);
      var c := KindCount(docs, kinds[0]);
      if c > 0 {
        assert BadgesOf(docs, kinds)[0] == Badge(kinds[0], c, BadgeTextAsWritten(kinds[0], c));
      }
    }
  }

  /** Each badge prints its count and its type's label as the view writes them. */
  lemma {:induction false} BadgesOfText(docs: seq<Document>, kinds: seq<DocType>)
    ensures forall b :: b in BadgesOf(docs, kinds) ==> b.text == BadgeTextAsWritten(b.kind, b.count)
  {
    if kinds != [] {
      BadgesOfText(docs, kinds[1..]);
    }
  }

  /** A type has a badge exactly when some document of the group has that type. */
  lemma BadgeExactlyForPresentTypes(docs: seq<Document>, k: DocType)
    ensures (exists b :: b in Badges(docs) && b.kind == k) <==> exists x :: x in docs && x.kind == k
  {
    BadgesOfMeaning(docs, AllKinds);
    MembersMeaning(docs, KindFn(), k);
    if exists x :: x in docs && x.kind == k {
      var x :| x in docs && x.kind == k;
      assert x in Members(docs, KindFn(), k);
      assert k in AllKinds by {
        match k
        case Lab =>
        case Prescription =>
        case Report =>
        case Scan =>
      }
    }
    if exists b :: b in Badges(docs) && b.kind == k {
      var b :| b in Badges(docs) && b.kind == k;
      var m := Members(docs, KindFn(), k);
      assert m[0] in m;
    }
  }

  // ---------------------------------------------------------------- the plural marker

  lemma LowerLabLabel()
    ensures Lower(TypeLabel(Lab)) == "lab results"
  {
    var s := Lower(TypeLabel(Lab));
    assert s[0] == 'l' && s[4] == 'r';
  }

  /** As printed, one lab document reads "1 lab results" and two read "2 lab resultss". */
  lemma LabBadgeAsWritten()
    ensures BadgeTextAsWritten(Lab, 1) == "1 lab results"
    ensures BadgeTextAsWritten(Lab, 2) == "2 lab resultss"
  {
    LowerLabLabel();
  }

  lemma NounsAreSingular(k: DocType)
    ensures |TypeNoun(k)| > 0 && TypeNoun(k)[|TypeNoun(k)| - 1] != 's'
  {
  }

  /** The corrected text ends in 's' exactly when the count is not 1, for every type. */
  lemma BadgeTextPlural(k: DocType, count: nat)
    ensures var t := BadgeText(k, count); |t| > 0 && (t[|t| - 1] == 's' <==> count != 1)
  {
    NounsAreSingular(k);
  }

  /** A group with one lab document shows the badge "1 lab results". */
  lemma OneLabBadge(d: Document)
    requires d.kind == Lab
    ensures Badges([d]) == [Badge(Lab, 1, "1 lab results")]
  {
    var docs := [d];
    assert Members(docs, KindFn(), Lab) == [d] by {
      FilterSnoc([], d, HasKey(KindFn(), Lab));
      assert [] + [d] == docs;
    }
    forall k | k != Lab
      ensures KindCount(docs, k) == 0
    {
      NoSuchKey(docs, KindFn(), k);
    }
    assert BadgesOf(docs, [Scan]) == [];
    assert BadgesOf(docs, [Report, Scan]) == [];
    assert BadgesOf(docs, [Prescription, Report, Scan]) == [];
    assert AllKinds[1..] == [Prescription, Report, Scan];
    LabBadgeAsWritten();
  }

  /** The corrected badges count as the shown ones do, and each text ends in 's' exactly when its count is not 1. */
  lemma CorrectedBadgesPlural(docs: seq<Document>)
    ensures |CorrectedBadges(docs)| == |Badges(docs)|
    ensures forall i :: 0 <= i < |Badges(docs)| ==>
              var b := CorrectedBadges(docs)[i];
              b.kind == Badges(docs)[i].kind && b.count == Badges(docs)[i].count
              && |b.text| > 0 && (b.text[|b.text| - 1] == 's' <==> b.count != 1)
  {
    var bs := Badges(docs);
    forall i | 0 <= i < |bs|
      ensures var t := CorrectedBadges(docs)[i].text; |t| > 0 && (t[|t| - 1] == 's' <==> bs[i].count != 1)
    {
      BadgeTextPlural(bs[i].kind, bs[i].count);
    }
  }
}
