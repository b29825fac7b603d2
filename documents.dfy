/**
 * The medical document record shared by every view, and the app's sample list.
 * A document's date is held as the calendar day it names.
 */
module Documents {
  import opened Calendar

  datatype DocType = Lab | Prescription | Report | Scan

  datatype Document = Document(id: string, title: string, doctor: string, date: Date, kind: DocType)

  function CalendarDay(y: int, m: int, d: int): Date
    requires IsValidDay(YMD(y, m, d))
  {
    YMD(y, m, d)
  }

  /** The ten sample documents, newest first, as the app ships them. */
  function SampleDocuments(): seq<Document> {
    [ Document("1", "Blood Test Results", "Dr. Sarah Johnson", CalendarDay(2024, 12, 15), Lab),
      Document("2", "Prescription - Amoxicillin", "Dr. Michael Chen", CalendarDay(2024, 12, 12), Prescription),
      Document("3", "Annual Physical Report", "Dr. Sarah Johnson", CalendarDay(2024, 12, 10), Report),
      Document("4", "Chest X-Ray Scan", "Dr. Robert Kim", CalendarDay(2024, 12, 8), Scan),
      Document("5", "Cholesterol Panel", "Dr. Sarah Johnson", CalendarDay(2024, 11, 22), Lab),
      Document("6", "MRI Brain Scan", "Dr. Jennifer Lee", CalendarDay(2024, 11, 15), Scan),
      Document("7", "Prescription - Lisinopril", "Dr. Michael Chen", CalendarDay(2024, 11, 8), Prescription),
      Document("8", "Cardiology Consultation Report", "Dr. William Brown", CalendarDay(2024, 10, 25), Report),
      Document("9", "Thyroid Function Test", "Dr. Sarah Johnson", CalendarDay(2024, 10, 18), Lab),
      Document("10", "Ultrasound Abdomen", "Dr. Robert Kim", CalendarDay(2024, 9, 30), Scan) ]
  }

  function Ids(docs: seq<Document>): (r: seq<string>)
    ensures |r| == |docs| && forall i :: 0 <= i < |docs| ==> r[i] == docs[i].id
  {
    seq(|docs|, i requires 0 <= i < |docs| => docs[i].id)
  }
}
