/**
 * The row-level parsers of the two spreadsheets. The CSV text is taken as
 * already split into rows of cells (with empty lines skipped), together with
 * the errors the CSV reader reported; what is modelled is the row loop of
 * each parser: which rows are skipped, how each cell is cleaned, and when the
 * master-sheet parser gives up.
 */
module Parser {
  import opened Wrappers
  import opened Text
  import opened Seqs
  import opened Types

  // ---------------------------------------------------------------------------
  // cells

  /** `(row[k] ?? '').trim()`: a missing cell reads as the empty string. */
  function Cell(row: seq<string>, k: nat): (c: string)
    ensures IsTrimmed(c)
    ensures k >= |row| ==> c == ""
  {
    if k < |row| then Trim(row[k]) else ""
  }

  // ---------------------------------------------------------------------------
  // CTC

  /**
   * parseCtc: every character that is not a decimal digit is dropped (the
   * grouping commas of "12,00,000" among them) and what is left is read as a
   * decimal number; no digits at all reads as 0.
   */
  function ParseCtc(raw: string): nat {
    var digits := KeepDigits(raw);
    if digits == [] then 0 else DecimalValue(digits)
  }

  /** A rendered amount reads back as itself. */
  lemma ParseCtcShowNat(n: nat)
    ensures ParseCtc(ShowNat(n)) == n
  {
    KeepDigitsOfDigits(ShowNat(n));
    ShowNatValue(n);
  }

  /** Grouping separators and any other non-digit characters do not change the amount. */
  lemma ParseCtcIgnoresNonDigit(a: string, c: char, b: string)
    requires !IsDigit(c)
    ensures ParseCtc(a + [c] + b) == ParseCtc(a + b)
  {
    KeepDigitsAppend(a + [c], b);
    KeepDigitsAppend(a, [c]);
    KeepDigitsAppend(a, b);
    assert KeepDigits([c]) == [];
    assert KeepDigits(a + [c]) == KeepDigits(a);
    assert KeepDigits(a + [c] + b) == KeepDigits(a + b);
  }

  /** A cell with no digit in it reads as 0. */
  lemma ParseCtcNoDigits(raw: string)
    requires forall i | 0 <= i < |raw| :: !IsDigit(raw[i])
    ensures ParseCtc(raw) == 0
  {
    var d := KeepDigits(raw);
    if d != [] {
      KeepDigitsSubset(raw, d[0]);
    }
  }

  /** Every digit kept comes from the input. */
  lemma {:induction false} KeepDigitsSubset(s: string, c: char)
    requires c in KeepDigits(s)
    ensures c in s
  {
    if s != [] {
      if IsDigit(s[0]) && c == s[0] {
      } else {
        assert c in KeepDigits(s[1..]);
        KeepDigitsSubset(s[1..], c);
      }
    }
  }

  // ---------------------------------------------------------------------------
  // offer type

  /** The type spelled by a cell: one of the five spellings exactly, otherwise Regular. */
  function OfferTypeOf(cell: string): (t: OfferType)
    ensures (exists u :: OfferTypeName(u) == cell) ==> OfferTypeName(t) == cell
    ensures (forall u :: OfferTypeName(u) != cell) ==> t == Regular
  {
    if cell == "Internship" then Internship
    else if cell == "Dream" then Dream
    else if cell == "Marquee" then Marquee
    else if cell == "Super Dream" then SuperDream
    else Regular
  }

  /** Every type reads back from its own spelling. */
  lemma OfferTypeRoundTrip(t: OfferType)
    ensures OfferTypeOf(OfferTypeName(t)) == t
  {
    match t
    case Internship =>
    case Regular =>
    case Dream =>
    case Marquee =>
    case SuperDream =>
  }

  // ---------------------------------------------------------------------------
  // offer-details sheet

  /**
   * A data row of the offer sheet that yields a record: at least five cells,
   * a roll number or a name, and a company.
   */
  predicate OfferRowKept(row: seq<string>) {
    && |row| >= 5
    && !(Cell(row, 0) == "" && Cell(row, 1) == "")
    && Cell(row, 2) != ""
  }

  /** The record of a kept offer row: columns roll number, name, company, CTC, type, date. */
  function OfferOfRow(row: seq<string>): (o: OfferRecord)
    ensures IsTrimmed(o.rollNo) && IsTrimmed(o.name) && IsTrimmed(o.company) && IsTrimmed(o.offerDate)
    ensures o.ctc >= 0
    ensures |row| <= 5 ==> o.offerDate == ""
  {
    OfferRecord(
      Cell(row, 0), Cell(row, 1), Cell(row, 2),
      ParseCtc(Cell(row, 3)), OfferTypeOf(Cell(row, 4)), Cell(row, 5))
  }

  /** parseOfferDetails on the rows the CSV reader produced; row 0 is the header. */
  function OfferDetails(rows: seq<seq<string>>): seq<OfferRecord> {
    if |rows| <= 1 then [] else Collect(rows[1..], OfferRowKept, OfferOfRow)
  }

  /**
   * The records are exactly the kept data rows, one each, in input order: the
   * data rows are filtered, then each is turned into a record.
   */
  lemma OfferDetailsFilterMap(rows: seq<seq<string>>)
    ensures OfferDetails(rows) == Map(Filter(if |rows| <= 1 then [] else rows[1..], OfferRowKept), OfferOfRow)
  {
    if |rows| > 1 {
      CollectFilterMap(rows[1..], OfferRowKept, OfferOfRow);
    }
  }

  /** Every record comes from a kept data row, and every kept data row gives a record. */
  lemma {:induction false} OfferDetailsMember(rows: seq<seq<string>>, o: OfferRecord)
    ensures o in OfferDetails(rows) <==>
      exists i | 1 <= i < |rows| :: OfferRowKept(rows[i]) && o == OfferOfRow(rows[i])
  {
    if |rows| > 1 {
      CollectMemberAfterFirst(rows, OfferRowKept, OfferOfRow, o);
    }
  }

  /** Every record has a company and a roll number or a name. */
  lemma {:induction false} OfferDetailsFields(rows: seq<seq<string>>, o: OfferRecord)
    requires o in OfferDetails(rows)
    ensures o.company != "" && (o.rollNo != "" || o.name != "")
  {
    OfferDetailsMember(rows, o);
  }

  /** At most one record per data row. */
  lemma {:induction false} OfferDetailsLength(rows: seq<seq<string>>)
    ensures |rows| >= 1 ==> |OfferDetails(rows)| <= |rows| - 1
    ensures |rows| <= 1 ==> OfferDetails(rows) == []
  {
    OfferDetailsFilterMap(rows);
  }

  /**
   * parseOfferDetails: a loop over the data rows that skips short rows, rows
   * with neither roll number nor name and rows without a company, and pushes
   * one record for each other row. It never fails: the errors of the CSV
   * reader are not consulted.
   */
  method ParseOfferDetails(rows: seq<seq<string>>) returns (records: seq<OfferRecord>)
    ensures records == OfferDetails(rows)
  {
    records := [];
    if |rows| <= 1 {
      return;
    }
    var data := rows[1..];
    for j := 0 to |data|
      invariant records == Collect(data[..j], OfferRowKept, OfferOfRow)
    {
      var row := data[j];
      CollectStep(data, OfferRowKept, OfferOfRow, j);
      if |row| < 5 {
        continue;
      }
      var rollNo := Cell(row, 0);
      var name := Cell(row, 1);
      var company := Cell(row, 2);
      var ctcRaw := Cell(row, 3);
      var typeRaw := Cell(row, 4);
      var offerDate := Cell(row, 5);
      if rollNo == "" && name == "" {
        continue;
      }
      if company == "" {
        continue;
      }
      var offerType := OfferTypeOf(typeRaw);
      records := records + [OfferRecord(rollNo, name, company, ParseCtc(ctcRaw), offerType, offerDate)];
    }
    assert data[..|data|] == data;
  }

  // ---------------------------------------------------------------------------
  // master sheet

  /** The list of companies of a master row: comma-separated, each trimmed, empty ones dropped. */
  function SplitCompanies(raw: string): (cs: seq<string>)
    ensures forall c | c in cs :: c != "" && IsTrimmed(c) && ',' !in c
  {
    if raw == "" then []
    else
      var parts := Split(raw, ',');
      TrimmedPartsNoChar(parts, ',');
      Filter(Map(parts, Trim), NonEmpty)
  }

  predicate NonEmpty(s: string) { s != "" }

  lemma TrimmedPartsNoChar(parts: seq<string>, c: char)
    requires forall p | p in parts :: c !in p
    ensures forall t | t in Map(parts, Trim) :: c !in t && IsTrimmed(t)
  {
    forall t | t in Map(parts, Trim) ensures c !in t && IsTrimmed(t) {
      var k :| 0 <= k < |parts| && Map(parts, Trim)[k] == t;
      TrimmedPart(parts, k, c);
    }
  }

  lemma TrimmedPart(parts: seq<string>, k: nat, c: char)
    requires k < |parts| && c !in parts[k]
    ensures c !in Map(parts, Trim)[k] && IsTrimmed(Map(parts, Trim)[k])
  {
    TrimNoChar(parts[k], c);
  }

  /** Trimming keeps the characters it does not remove, so adds no character. */
  lemma TrimNoChar(s: string, c: char)
    requires c !in s
    ensures c !in Trim(s)
  {
    TrimInfix(s);
  }

  /**
   * A list of company names, each non-empty, trimmed and without a comma, is
   * read back from its comma-joined text; a blank cell is the empty list.
   */
  lemma {:induction false} SplitCompaniesJoin(cs: seq<string>)
    requires forall c | c in cs :: c != "" && IsTrimmed(c) && ',' !in c
    ensures SplitCompanies(if cs == [] then "" else Join(cs, ',')) == cs
  {
    if cs != [] {
      var raw := Join(cs, ',');
      assert cs[0] in cs;
      JoinNonEmpty(cs, ',');
      SplitJoin(cs, ',');
      MapTrimTrimmed(cs);
      FilterAllKept(cs, NonEmpty);
    }
  }

  /** Trimming pieces that are already trimmed leaves them alone. */
  lemma MapTrimTrimmed(cs: seq<string>)
    requires forall c | c in cs :: IsTrimmed(c)
    ensures Map(cs, Trim) == cs
  {
    forall k | 0 <= k < |cs| ensures Map(cs, Trim)[k] == cs[k] {
      assert cs[k] in cs;
      TrimTrimmed(cs[k]);
    }
  }

  /** The join of non-empty pieces is non-empty. */
  lemma {:induction false} JoinNonEmpty(parts: seq<string>, sep: char)
    requires |parts| >= 1 && parts[0] != ""
    ensures Join(parts, sep) != []
  {
    if |parts| > 1 {
      assert Join(parts, sep)[0] == parts[0][0];
    }
  }

  /** A data row of the master sheet that yields a record: at least seven cells and a reg-no or a name. */
  predicate MasterRowKept(row: seq<string>) {
    |row| >= 7 && !(Cell(row, 1) == "" && Cell(row, 2) == "")
  }

  /**
   * The record of a kept master row: columns roll number (the serial column),
   * reg-no, name, gender, class, section, choice, status, companies.
   */
  function StudentOfRow(row: seq<string>): (r: StudentRecord)
    ensures IsTrimmed(r.regNo) && IsTrimmed(r.rollNo) && IsTrimmed(r.name) && IsTrimmed(r.status)
    ensures |row| <= 7 ==> r.status == "" && r.companies == []
    ensures forall c | c in r.companies :: c != "" && IsTrimmed(c) && ',' !in c
  {
    StudentRecord(
      regNo := Cell(row, 1), rollNo := Cell(row, 0), name := Cell(row, 2),
      gender := Cell(row, 3), cls := Cell(row, 4), section := Cell(row, 5),
      choice := Cell(row, 6), status := Cell(row, 7),
      companies := SplitCompanies(Cell(row, 8)))
  }

  /** An error the CSV reader reported: the row it was found at and its message. */
  datatype CsvError = CsvError(row: nat, message: string)

  /** The three ways parseMasterSheet gives up. */
  datatype ParseError =
    | CsvParseError(row: nat, message: string)
    | NoStudentRecords
    | NoValidStudentRecords

  /** The message of the error thrown. */
  function ErrorMessage(e: ParseError): string {
    match e
    case CsvParseError(row, message) => "CSV parse error at row " + ShowNat(row) + ": " + message
    case NoStudentRecords => "No student records found in the spreadsheet."
    case NoValidStudentRecords => "No valid student records found after parsing."
  }

  /**
   * parseMasterSheet on the rows and errors the CSV reader produced: the first
   * reader error is reported, a sheet with no data row is refused, and so is
   * one none of whose data rows yields a record.
   */
  function MasterSheet(rows: seq<seq<string>>, errors: seq<CsvError>): (r: Result<seq<StudentRecord>, ParseError>)
    ensures |errors| > 0 ==> r == Err(CsvParseError(errors[0].row, errors[0].message))
    ensures |errors| == 0 && |rows| < 2 ==> r == Err(NoStudentRecords)
    ensures r.Ok? ==> |r.value| >= 1
  {
    if |errors| > 0 then Err(CsvParseError(errors[0].row, errors[0].message))
    else if |rows| < 2 then Err(NoStudentRecords)
    else
      var records := Collect(rows[1..], MasterRowKept, StudentOfRow);
      if records == [] then Err(NoValidStudentRecords) else Ok(records)
  }

  /** The records are exactly the kept data rows, one each, in input order. */
  lemma MasterSheetFilterMap(rows: seq<seq<string>>, errors: seq<CsvError>)
    requires MasterSheet(rows, errors).Ok?
    ensures MasterSheet(rows, errors).value == Map(Filter(rows[1..], MasterRowKept), StudentOfRow)
  {
    CollectFilterMap(rows[1..], MasterRowKept, StudentOfRow);
  }

  /**
   * The outcome of parseMasterSheet: it fails exactly when the reader reported
   * an error, there is no data row, or no data row is kept.
   */
  lemma MasterSheetOutcome(rows: seq<seq<string>>, errors: seq<CsvError>)
    ensures MasterSheet(rows, errors).Err? <==>
      |errors| > 0 || |rows| < 2 || forall i | 1 <= i < |rows| :: !MasterRowKept(rows[i])
  {
    if |errors| == 0 && |rows| >= 2 {
      var records := Collect(rows[1..], MasterRowKept, StudentOfRow);
      if records == [] {
        forall i | 1 <= i < |rows| ensures !MasterRowKept(rows[i]) {
          CollectMemberAfterFirst(rows, MasterRowKept, StudentOfRow, StudentOfRow(rows[i]));
        }
      } else {
        assert records[0] in records;
        CollectMemberAfterFirst(rows, MasterRowKept, StudentOfRow, records[0]);
      }
    }
  }

  /** Every record parseMasterSheet returns comes from a kept data row, so it has a reg-no or a name. */
  lemma MasterSheetNamed(rows: seq<seq<string>>, errors: seq<CsvError>)
    requires MasterSheet(rows, errors).Ok?
    ensures forall r | r in MasterSheet(rows, errors).value :: r.regNo != "" || r.name != ""
  {
    forall r | r in MasterSheet(rows, errors).value ensures r.regNo != "" || r.name != "" {
      CollectMemberAfterFirst(rows, MasterRowKept, StudentOfRow, r);
    }
  }

  /**
   * parseMasterSheet: the reader's first error is thrown, then a sheet with no
   * data row; the loop skips short rows and rows with neither reg-no nor name,
   * and pushes one record for each other row; an empty result is thrown.
   */
  method ParseMasterSheet(rows: seq<seq<string>>, errors: seq<CsvError>)
    returns (r: Result<seq<StudentRecord>, ParseError>)
    ensures r == MasterSheet(rows, errors)
  {
    if |errors| > 0 {
      return Err(CsvParseError(errors[0].row, errors[0].message));
    }
    if |rows| < 2 {
      return Err(NoStudentRecords);
    }
    var records: seq<StudentRecord> := [];
    var data := rows[1..];
    for j := 0 to |data|
      invariant records == Collect(data[..j], MasterRowKept, StudentOfRow)
    {
      var row := data[j];
      CollectStep(data, MasterRowKept, StudentOfRow, j);
      if |row| < 7 {
        continue;
      }
      var regNo := Cell(row, 1);
      var name := Cell(row, 2);
      if regNo == "" && name == "" {
        continue;
      }
      var companyRaw := Cell(row, 8);
      var companies := SplitCompanies(companyRaw);
      records := records + [StudentRecord(
        regNo := regNo, rollNo := Cell(row, 0), name := name,
        gender := Cell(row, 3), cls := Cell(row, 4), section := Cell(row, 5),
        choice := Cell(row, 6), status := Cell(row, 7), companies := companies)];
    }
    assert data[..|data|] == data;
    if |records| == 0 {
      return Err(NoValidStudentRecords);
    }
    return Ok(records);
  }
}
