/** The records the parsers produce and the aggregation engine consumes. */
module Types {

  /** One row of the master sheet: one student. */
  datatype StudentRecord = StudentRecord(
    regNo: string,
    rollNo: string,
    name: string,
    gender: string,
    cls: string,
    section: string,
    choice: string,
    status: string,
    companies: seq<string>)

  /** The five offer tiers; the source spells SuperDream as "Super Dream". */
  datatype OfferType = Internship | Regular | Dream | Marquee | SuperDream

  /** The spelling of each offer type in the spreadsheet and in the report. */
  function OfferTypeName(t: OfferType): string {
    match t
    case Internship => "Internship"
    case Regular => "Regular"
    case Dream => "Dream"
    case Marquee => "Marquee"
    case SuperDream => "Super Dream"
  }

  /** One row of the offer-details sheet: one offer. */
  datatype OfferRecord = OfferRecord(
    rollNo: string,
    name: string,
    company: string,
    ctc: int,
    offerType: OfferType,
    offerDate: string)

  /** What the PDF report shows; none of it changes the statistics. */
  datatype ReportOptions = ReportOptions(
    showSections: bool,
    showGender: bool,
    showCompanies: bool,
    showCtc: bool,
    showTimeline: bool,
    showCtcBrackets: bool)

  const DEFAULT_OPTIONS := ReportOptions(
    showSections := false,
    showGender := false,
    showCompanies := false,
    showCtc := true,
    showTimeline := true,
    showCtcBrackets := false)
}
