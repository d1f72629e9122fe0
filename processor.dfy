/**
 * The cohort side of the aggregation engine: per-branch statistics, the
 * global counts and the assembly of PlacementStats, including the company
 * index that is built in place (module Companies holds its specification).
 *
 * Percentages are integers in tenths of a percent (333 stands for 33.3).
 */
module Processor {
  import opened Text
  import opened Seqs
  import opened Types
  import Config
  import opened Companies
  import opened Rounding

  /**
   * `opted > 0 ? Math.round((placed / opted) * 1000) / 10 : 0`, in tenths: the
   * share of placed among opted, rounded to the nearest tenth of a percent.
   * Exact halves round up; the source's double product rounds a few of them
   * down (201 of 400 gives 50.2 there, 50.3 here).
   */
  function PercentTenths(placed: nat, opted: nat): (t: nat)
    ensures opted == 0 ==> t == 0
    ensures opted > 0 ==> 2 * opted * t <= 2000 * placed + opted < 2 * opted * (t + 1)
  {
    if opted > 0 then RoundDiv(1000 * placed, opted) else 0
  }

  /**
   * A percentage is at most 100.0 exactly when 2000 * placed < 2001 * opted;
   * in particular whenever placed <= opted, and not when placed >= 2 * opted.
   */
  lemma PercentAtMostHundred(placed: nat, opted: nat)
    requires opted > 0
    ensures PercentTenths(placed, opted) <= 1000 <==> 2000 * placed < 2001 * opted
    ensures placed <= opted ==> PercentTenths(placed, opted) <= 1000
  {
    RoundDivAtMost(1000 * placed, opted, 1000);
  }

  /** 1 placed of 3 opted gives 33.3. */
  lemma PercentOneOfThree()
    ensures PercentTenths(1, 3) == 333
  {
  }

  // ---------------------------------------------------------------------------
  // branch statistics

  datatype BranchStats = BranchStats(
    name: string,
    totalStudents: nat,
    optPlacement: nat,
    placed: nat,
    notPlaced: nat,
    hold: nat,
    dropped: nat,
    internshipOnly: nat,
    higherStudies: nat,
    exempt: nat,
    placementPercent: nat,
    totalOffers: nat,
    malePlaced: nat,
    femalePlaced: nat,
    maleOptPlacement: nat,
    femaleOptPlacement: nat,
    malePlacedPercent: nat,
    femalePlacedPercent: nat)

  function Choice(r: StudentRecord): string { r.choice }
  function Status(r: StudentRecord): string { r.status }
  function Gender(r: StudentRecord): string { r.gender }

  /** The section-level label of a record: trimmed class, then the trimmed section unless it is empty or "-". */
  function BranchLabel(cls: string, section: string): string {
    Label(Trim(cls), Trim(section))
  }

  /** The label of a trimmed class and a trimmed section. */
  function Label(c: string, s: string): string {
    if s == [] || s == "-" then c else c + " " + s
  }

  /** The label starts with the trimmed class; it is that class alone exactly when the section is empty or "-", else class, space, section. */
  lemma BranchLabelShape(cls: string, section: string)
    ensures var r := BranchLabel(cls, section);
      && |Trim(cls)| <= |r| && r[..|Trim(cls)|] == Trim(cls)
      && (r == Trim(cls) <==> Trim(section) == "" || Trim(section) == "-")
      && (r != Trim(cls) ==> r == Trim(cls) + " " + Trim(section))
  {
    LabelShape(Trim(cls), Trim(section));
  }

  lemma LabelShape(c: string, s: string)
    ensures var r := Label(c, s);
      && |c| <= |r| && r[..|c|] == c
      && (r == c <==> s == "" || s == "-")
      && (r != c ==> r == c + " " + s)
  {
    if !(s == [] || s == "-") {
      var r := c + " " + s;
      assert |r| > |c|;
      assert r[..|c|] == c;
    }
  }

  function SectionKey(r: StudentRecord): string { BranchLabel(r.cls, r.section) }
  function MergedKey(r: StudentRecord): string { Trim(r.cls) }


  /** Choices are exclusive: opted, higher studies and exempt never exceed the records counted. */
  lemma {:induction false} ChoiceCountsBound(rs: seq<StudentRecord>)
    ensures |FilterKey(rs, Choice, "Placement")| + |FilterKey(rs, Choice, "Higher Studies")|
          + |FilterKey(rs, Choice, "Placement Exempt")| <= |rs|
  {
    var vs := ["Placement", "Higher Studies", "Placement Exempt"];
    assert Distinct(vs);
    SumKeyCountsBound(rs, Choice, vs);
    assert SumKeyCounts(rs, Choice, vs[2..]) == |FilterKey(rs, Choice, vs[2])| + SumKeyCounts(rs, Choice, []);
    assert SumKeyCounts(rs, Choice, vs[1..]) == |FilterKey(rs, Choice, vs[1])| + SumKeyCounts(rs, Choice, vs[2..]);
  }

  /** Statuses are exclusive: the five status counts never exceed the records counted. */
  lemma {:induction false} StatusCountsBound(rs: seq<StudentRecord>)
    ensures |FilterKey(rs, Status, "Placed")| + |FilterKey(rs, Status, "Not Placed")|
          + |FilterKey(rs, Status, "Hold")| + |FilterKey(rs, Status, "Dropped")|
          + |FilterKey(rs, Status, "Internship Only")| <= |rs|
  {
    var vs := ["Placed", "Not Placed", "Hold", "Dropped", "Internship Only"];
    assert Distinct(vs);
    SumKeyCountsBound(rs, Status, vs);
    assert SumKeyCounts(rs, Status, vs[4..]) == |FilterKey(rs, Status, vs[4])| + SumKeyCounts(rs, Status, []);
    assert SumKeyCounts(rs, Status, vs[3..]) == |FilterKey(rs, Status, vs[3])| + SumKeyCounts(rs, Status, vs[4..]);
    assert SumKeyCounts(rs, Status, vs[2..]) == |FilterKey(rs, Status, vs[2])| + SumKeyCounts(rs, Status, vs[3..]);
    assert SumKeyCounts(rs, Status, vs[1..]) == |FilterKey(rs, Status, vs[1])| + SumKeyCounts(rs, Status, vs[2..]);
  }

  /** Genders are exclusive: male and female counts never exceed the records counted. */
  lemma {:induction false} GenderCountsBound(rs: seq<StudentRecord>)
    ensures |FilterKey(rs, Gender, "Male")| + |FilterKey(rs, Gender, "Female")| <= |rs|
  {
    var vs := ["Male", "Female"];
    assert Distinct(vs);
    SumKeyCountsBound(rs, Gender, vs);
    assert vs[1..][1..] == [];
  }

  /** True when every record with status "Placed" also chose "Placement". */
  predicate PlacedAreOpted(rs: seq<StudentRecord>) {
    forall r | r in rs :: r.status == "Placed" ==> r.choice == "Placement"
  }

  /**
   * computeBranchStats: the statistics of the records matchFn selects. The
   * counts of exclusive categories never exceed the branch size, the gender
   * splits never exceed their totals, each percentage is placed over opted in
   * tenths (0 when nobody opted), and the percentages stay within 100.0 when
   * every placed record also opted for placement.
   */
  function ComputeBranchStats(records: seq<StudentRecord>, name: string,
                              matchFn: StudentRecord -> bool): (b: BranchStats)
    ensures b.name == name
    ensures b.totalStudents == |Filter(records, matchFn)|
    ensures b.optPlacement + b.higherStudies + b.exempt <= b.totalStudents
    ensures b.placed + b.notPlaced + b.hold + b.dropped + b.internshipOnly <= b.totalStudents
    ensures b.malePlaced + b.femalePlaced <= b.placed
    ensures b.maleOptPlacement + b.femaleOptPlacement <= b.optPlacement
    ensures b.placementPercent == PercentTenths(b.placed, b.optPlacement)
    ensures b.malePlacedPercent == PercentTenths(b.malePlaced, b.maleOptPlacement)
    ensures b.femalePlacedPercent == PercentTenths(b.femalePlaced, b.femaleOptPlacement)
    ensures PlacedAreOpted(Filter(records, matchFn)) ==>
      b.placementPercent <= 1000 && b.malePlacedPercent <= 1000 && b.femalePlacedPercent <= 1000
    ensures b.totalOffers == OfferCount(Filter(records, matchFn))
  {
    var branchRecords := Filter(records, matchFn);
    var branchOpt := FilterKey(branchRecords, Choice, "Placement");
    var branchPlaced := FilterKey(branchRecords, Status, "Placed");
    var malePlaced := |FilterKey(branchPlaced, Gender, "Male")|;
    var femalePlaced := |FilterKey(branchPlaced, Gender, "Female")|;
    var maleOptPlacement := |FilterKey(branchOpt, Gender, "Male")|;
    var femaleOptPlacement := |FilterKey(branchOpt, Gender, "Female")|;
    ChoiceCountsBound(branchRecords);
    StatusCountsBound(branchRecords);
    GenderCountsBound(branchPlaced);
    GenderCountsBound(branchOpt);
    PercentBounds(branchRecords);
    BranchStats(
      name := name,
      totalStudents := |branchRecords|,
      optPlacement := |branchOpt|,
      placed := |branchPlaced|,
      notPlaced := |FilterKey(branchRecords, Status, "Not Placed")|,
      hold := |FilterKey(branchRecords, Status, "Hold")|,
      dropped := |FilterKey(branchRecords, Status, "Dropped")|,
      internshipOnly := |FilterKey(branchRecords, Status, "Internship Only")|,
      higherStudies := |FilterKey(branchRecords, Choice, "Higher Studies")|,
      exempt := |FilterKey(branchRecords, Choice, "Placement Exempt")|,
      placementPercent := PercentTenths(|branchPlaced|, |branchOpt|),
      totalOffers := OfferCount(branchRecords),
      malePlaced := malePlaced,
      femalePlaced := femalePlaced,
      maleOptPlacement := maleOptPlacement,
      femaleOptPlacement := femaleOptPlacement,
      malePlacedPercent := PercentTenths(malePlaced, maleOptPlacement),
      femalePlacedPercent := PercentTenths(femalePlaced, femaleOptPlacement))
  }

  /** A placed count at most its opted count gives a percentage of at most 100.0. */
  lemma PercentWithinHundred(placed: nat, opted: nat)
    requires placed <= opted
    ensures PercentTenths(placed, opted) <= 1000
  {
    if opted > 0 { PercentAtMostHundred(placed, opted); }
  }

  /** When every placed record opted, each placed count is at most its opted count. */
  lemma PercentBounds(rs: seq<StudentRecord>)
    ensures PlacedAreOpted(rs) ==>
      && PercentTenths(|FilterKey(rs, Status, "Placed")|, |FilterKey(rs, Choice, "Placement")|) <= 1000
      && PercentTenths(|FilterKey(FilterKey(rs, Status, "Placed"), Gender, "Male")|,
                       |FilterKey(FilterKey(rs, Choice, "Placement"), Gender, "Male")|) <= 1000
      && PercentTenths(|FilterKey(FilterKey(rs, Status, "Placed"), Gender, "Female")|,
                       |FilterKey(FilterKey(rs, Choice, "Placement"), Gender, "Female")|) <= 1000
  {
    if PlacedAreOpted(rs) {
      FilterKeyImplied(rs, Status, "Placed", Choice, "Placement");
      NestedFilterKeyImplied(rs, Status, "Placed", Choice, "Placement", Gender, "Male");
      NestedFilterKeyImplied(rs, Status, "Placed", Choice, "Placement", Gender, "Female");
      PercentWithinHundred(|FilterKey(rs, Status, "Placed")|, |FilterKey(rs, Choice, "Placement")|);
      PercentWithinHundred(|FilterKey(FilterKey(rs, Status, "Placed"), Gender, "Male")|,
                           |FilterKey(FilterKey(rs, Choice, "Placement"), Gender, "Male")|);
      PercentWithinHundred(|FilterKey(FilterKey(rs, Status, "Placed"), Gender, "Female")|,
                           |FilterKey(FilterKey(rs, Choice, "Placement"), Gender, "Female")|);
    }
  }

  // ---------------------------------------------------------------------------
  // branch lists

  /** `r => key(r) === v`. */
  function Matcher(key: StudentRecord -> string, v: string): StudentRecord -> bool {
    r => key(r) == v
  }

  /**
   * `labels.map(label => computeBranchStats(records, label, r => key(r) === label))`:
   * one entry per label, in order, counting the records whose key is that label.
   */
  function BranchesBy(records: seq<StudentRecord>, labels: seq<string>,
                      key: StudentRecord -> string): (bs: seq<BranchStats>)
    ensures |bs| == |labels|
    ensures forall i | 0 <= i < |labels| ::
      && bs[i].name == labels[i]
      && bs[i].totalStudents == |FilterKey(records, key, labels[i])|
  {
    if labels == [] then []
    else
      var rest := BranchesBy(records, labels[1..], key);
      RowsCons(records, labels, key, BranchOf(records, labels[0], key), rest);
      [BranchOf(records, labels[0], key)] + rest
  }

  /** The row of the first label in front of the rows of the others. */
  lemma RowsCons(records: seq<StudentRecord>, labels: seq<string>, key: StudentRecord -> string,
                 b: BranchStats, rest: seq<BranchStats>)
    requires labels != [] && b.name == labels[0] && b.totalStudents == |FilterKey(records, key, labels[0])|
    requires |rest| == |labels| - 1
    requires forall i | 0 <= i < |labels| - 1 ::
      rest[i].name == labels[1..][i] && rest[i].totalStudents == |FilterKey(records, key, labels[1..][i])|
    ensures forall i | 0 <= i < |labels| ::
      ([b] + rest)[i].name == labels[i] && ([b] + rest)[i].totalStudents == |FilterKey(records, key, labels[i])|
  {
    forall i | 0 < i < |labels|
      ensures ([b] + rest)[i].name == labels[i] && ([b] + rest)[i].totalStudents == |FilterKey(records, key, labels[i])|
    {
      assert ([b] + rest)[i] == rest[i - 1] && labels[1..][i - 1] == labels[i];
    }
  }

  /** `computeBranchStats(records, label, r => key(r) === label)`: the row of one label. */
  function BranchOf(records: seq<StudentRecord>, branch: string, key: StudentRecord -> string): (b: BranchStats)
    ensures b.name == branch && b.totalStudents == |FilterKey(records, key, branch)|
  {
    FilterIsFilterKey(records, Matcher(key, branch), key, branch);
    ComputeBranchStats(records, branch, Matcher(key, branch))
  }

  function SumStudents(bs: seq<BranchStats>): nat {
    if bs == [] then 0 else bs[0].totalStudents + SumStudents(bs[1..])
  }

  /** Branches with distinct labels share no student: their sizes add up to at most the cohort. */
  lemma {:induction false} BranchesPartition(records: seq<StudentRecord>, labels: seq<string>,
                                             key: StudentRecord -> string)
    requires Distinct(labels)
    ensures SumStudents(BranchesBy(records, labels, key)) <= |records|
  {
    BranchesSum(records, labels, key);
    SumKeyCountsBound(records, key, labels);
  }

  lemma {:induction false} BranchesSum(records: seq<StudentRecord>, labels: seq<string>,
                                       key: StudentRecord -> string)
    ensures SumStudents(BranchesBy(records, labels, key)) == SumKeyCounts(records, key, labels)
  {
    if labels != [] {
      BranchesSum(records, labels[1..], key);
      assert BranchesBy(records, labels, key)[1..] == BranchesBy(records, labels[1..], key);
    }
  }

  // ---------------------------------------------------------------------------
  // the whole report

  datatype PlacementStats = PlacementStats(
    totalCount: nat,
    optPlacement: nat,
    higherStudies: nat,
    exempt: nat,
    placed: nat,
    notPlaced: nat,
    hold: nat,
    dropped: nat,
    internshipOnly: nat,
    overallPlacementPercent: nat,
    totalOffers: nat,
    totalCompanies: nat,
    branches: seq<BranchStats>,
    mergedBranches: seq<BranchStats>,
    companies: seq<CompanyStats>,
    topRecruiters: seq<CompanyStats>)

  /** The comparator `(a, b) => b.totalOffers - a.totalOffers` as an ascending key. */
  function NegOffers(c: CompanyStats): int { -(c.totalOffers as int) }

  /** How many companies `slice(0, 10)` keeps. */
  function TopCount(n: nat): nat { if n < 10 then n else 10 }

  /** The company list of the report: the company map's values sorted by decreasing offers. */
  function SortedCompanies(records: seq<StudentRecord>): seq<CompanyStats> {
    SortByOffers(CompanyIndex(records))
  }

  /** `.sort((a, b) => b.totalOffers - a.totalOffers)`. */
  function SortByOffers(index: seq<CompanyStats>): seq<CompanyStats> {
    SortBy(index, NegOffers)
  }

  /** The per-section table, in BRANCH_ORDER. */
  function SectionBranches(records: seq<StudentRecord>): seq<BranchStats> {
    BranchesBy(records, Config.BRANCH_ORDER, SectionKey)
  }

  /** The merged-branch table, in MERGED_BRANCH_ORDER. */
  function MergedBranches(records: seq<StudentRecord>): seq<BranchStats> {
    BranchesBy(records, Config.MERGED_BRANCH_ORDER, MergedKey)
  }

  /** What computeStats returns for a cohort. */
  function PlacementStatsOf(records: seq<StudentRecord>): PlacementStats {
    var opted := |FilterKey(records, Choice, "Placement")|;
    var placed := |FilterKey(records, Status, "Placed")|;
    var companies := SortedCompanies(records);
    PlacementStats(
      totalCount := |records|,
      optPlacement := opted,
      higherStudies := |FilterKey(records, Choice, "Higher Studies")|,
      exempt := |FilterKey(records, Choice, "Placement Exempt")|,
      placed := placed,
      notPlaced := |FilterKey(records, Status, "Not Placed")|,
      hold := |FilterKey(records, Status, "Hold")|,
      dropped := |FilterKey(records, Status, "Dropped")|,
      internshipOnly := |FilterKey(records, Status, "Internship Only")|,
      overallPlacementPercent := PercentTenths(placed, opted),
      totalOffers := OfferCount(records),
      totalCompanies := |companies|,
      branches := SectionBranches(records),
      mergedBranches := MergedBranches(records),
      companies := companies,
      topRecruiters := companies[..TopCount(|companies|)])
  }

  /** The cohort counts: exclusive categories never exceed the cohort, and the overall percentage is placed over opted. */
  lemma StatsCounts(records: seq<StudentRecord>)
    ensures var s := PlacementStatsOf(records);
      && s.totalCount == |records|
      && s.optPlacement + s.higherStudies + s.exempt <= s.totalCount
      && s.placed + s.notPlaced + s.hold + s.dropped + s.internshipOnly <= s.totalCount
      && s.overallPlacementPercent == PercentTenths(s.placed, s.optPlacement)
      && (PlacedAreOpted(records) ==> s.overallPlacementPercent <= 1000)
  {
    ChoiceCountsBound(records);
    StatusCountsBound(records);
    PercentBounds(records);
  }

  /**
   * The per-section table: one row per configured section, in configuration
   * order, each counting the records with that label; the rows never count a
   * student twice.
   */
  lemma StatsBranches(records: seq<StudentRecord>)
    ensures var s := PlacementStatsOf(records);
      && |s.branches| == |Config.BRANCH_ORDER|
      && (forall i | 0 <= i < |s.branches| ::
            s.branches[i].name == Config.BRANCH_ORDER[i]
            && s.branches[i].totalStudents == |FilterKey(records, SectionKey, Config.BRANCH_ORDER[i])|)
      && SumStudents(s.branches) <= s.totalCount
  {
    Config.OrdersDistinct();
    BranchesPartition(records, Config.BRANCH_ORDER, SectionKey);
  }

  /**
   * The merged-branch table: one row per configured branch, in configuration
   * order, each counting the records whose trimmed class is that branch; the
   * rows never count a student twice.
   */
  lemma StatsMergedBranches(records: seq<StudentRecord>)
    ensures var s := PlacementStatsOf(records);
      && |s.mergedBranches| == |Config.MERGED_BRANCH_ORDER|
      && (forall i | 0 <= i < |s.mergedBranches| ::
            s.mergedBranches[i].name == Config.MERGED_BRANCH_ORDER[i]
            && s.mergedBranches[i].totalStudents == |FilterKey(records, MergedKey, Config.MERGED_BRANCH_ORDER[i])|)
      && SumStudents(s.mergedBranches) <= s.totalCount
  {
    Config.OrdersDistinct();
    BranchesPartition(records, Config.MERGED_BRANCH_ORDER, MergedKey);
  }

  /**
   * The company list: the company map's entries, reordered by decreasing
   * number of offers, one per name, each counting the entries carrying its
   * name; together they count every counted entry exactly once.
   */
  lemma SortedCompaniesFacts(records: seq<StudentRecord>)
    ensures var cs := SortedCompanies(records);
      && multiset(cs) == multiset(CompanyIndex(records))
      && (forall i, j | 0 <= i < j < |cs| :: cs[i].totalOffers >= cs[j].totalOffers)
      && ValidIndex(cs)
      && (forall c | c in cs :: c.totalOffers == |FilterKey(Offers(records), Company, c.name)|)
      && SumBy(cs, TotalOffers) == |Offers(records)|
  {
    var cs := SortedCompanies(records);
    var os := Offers(records);
    var index := CompanyIndex(records);
    DecreasingOffers(cs);
    TallyValid(os);
    SortByDistinct(index, NegOffers, Name);
    PermutedEntries(cs, os);
    TallySum(os);
    SumByPermutation(cs, index, TotalOffers);
  }

  /** Sorted by NegOffers is sorted by decreasing offers. */
  lemma DecreasingOffers(cs: seq<CompanyStats>)
    requires SortedBy(cs, NegOffers)
    ensures forall i, j | 0 <= i < j < |cs| :: cs[i].totalOffers >= cs[j].totalOffers
  {
    assert forall i, j | 0 <= i < j < |cs| :: NegOffers(cs[i]) <= NegOffers(cs[j]);
  }

  /** Every entry of a reordering of the tally is valid and counts its company's offers. */
  lemma PermutedEntries(cs: seq<CompanyStats>, os: seq<CompanyOffer>)
    requires multiset(cs) == multiset(Tally(os))
    ensures forall k | 0 <= k < |cs| :: ValidEntry(cs[k])
    ensures forall c | c in cs :: c.totalOffers == |FilterKey(os, Company, c.name)|
  {
    forall k | 0 <= k < |cs|
      ensures ValidEntry(cs[k]) && cs[k].totalOffers == |FilterKey(os, Company, cs[k].name)|
    {
      var p := PermutedAt(cs, Tally(os), k);
      TallyEntry(os, p, "");
    }
    forall c | c in cs ensures c.totalOffers == |FilterKey(os, Company, c.name)| {
      var k :| 0 <= k < |cs| && cs[k] == c;
    }
  }

  /** The report's company figures: the sorted list, its length, and a total offer count that covers every listed offer. */
  lemma StatsCompanies(records: seq<StudentRecord>)
    ensures var s := PlacementStatsOf(records);
      && s.companies == SortedCompanies(records)
      && s.totalCompanies == |s.companies|
      && SumBy(s.companies, TotalOffers) <= s.totalOffers
  {
    SortedCompaniesFacts(records);
  }

  /** Sorting keeps companies with equal offer counts in the order they were first seen. */
  lemma CompaniesStable(index: seq<CompanyStats>, offers: nat)
    ensures FilterKey(SortByOffers(index), NegOffers, -(offers as int))
         == FilterKey(index, NegOffers, -(offers as int))
  {
    SortByStable(index, NegOffers, -(offers as int));
  }

  /** A company is listed exactly when some student has a non-empty cell naming it. */
  lemma CompanyListed(records: seq<StudentRecord>, name: string)
    ensures (exists c | c in SortedCompanies(records) :: c.name == name)
        <==> exists r, raw | r in records && raw in r.companies :: raw != "" && NormalizeCompany(raw) == name
  {
    var os := Offers(records);
    var index := CompanyIndex(records);
    TallyListed(os, name);
    if exists c | c in SortedCompanies(records) :: c.name == name {
      var c :| c in SortedCompanies(records) && c.name == name;
      assert c in multiset(index);
      var o :| o in os && o.company == name;
      OffersMember(records, o);
    }
    if exists r, raw | r in records && raw in r.companies :: raw != "" && NormalizeCompany(raw) == name {
      var r, raw :| r in records && raw in r.companies && raw != "" && NormalizeCompany(raw) == name;
      OffersMember(records, CompanyOffer(Trim(r.cls), name));
      var p := IndexOf(index, Name, name).value;
      assert index[p] in multiset(SortedCompanies(records));
    }
  }

  /** The branch split of each listed company counts the entries of that company from students of that branch. */
  lemma CompanyBranchCount(records: seq<StudentRecord>, k: nat, merged: string)
    requires k < |SortedCompanies(records)|
    ensures var c := SortedCompanies(records)[k];
      CountFor(c.branchWise, merged) == |FilterKey(Offers(records), Id, CompanyOffer(merged, c.name))|
  {
    var p := PermutedAt(SortedCompanies(records), CompanyIndex(records), k);
    TallyEntry(Offers(records), p, merged);
  }

  /** The top recruiters: the first ten companies (all of them when fewer), none with fewer offers than a company left out. */
  lemma StatsTopRecruiters(records: seq<StudentRecord>)
    ensures var s := PlacementStatsOf(records);
      && |s.topRecruiters| <= 10
      && (|s.companies| >= 10 ==> |s.topRecruiters| == 10)
      && (|s.companies| < 10 ==> s.topRecruiters == s.companies)
      && s.topRecruiters == s.companies[..|s.topRecruiters|]
      && (forall i, j | 0 <= i < |s.topRecruiters| <= j < |s.companies| ::
            s.topRecruiters[i].totalOffers >= s.companies[j].totalOffers)
  {
    var s := PlacementStatsOf(records);
    var cs := SortedCompanies(records);
    assert s.companies == cs && s.topRecruiters == cs[..TopCount(|cs|)];
    DecreasingOffers(cs);
    TopOfDecreasing(cs);
  }

  /** `slice(0, 10)` of a list sorted by decreasing offers keeps its ten best. */
  lemma TopOfDecreasing(cs: seq<CompanyStats>)
    requires forall i, j | 0 <= i < j < |cs| :: cs[i].totalOffers >= cs[j].totalOffers
    ensures var top := cs[..TopCount(|cs|)];
      && |top| <= 10
      && (|cs| >= 10 ==> |top| == 10)
      && (|cs| < 10 ==> top == cs)
      && (forall i, j | 0 <= i < |top| <= j < |cs| :: top[i].totalOffers >= cs[j].totalOffers)
  {
  }

  /**
   * computeStats. The company map is built entry by entry as the source does:
   * look the normalised name up, create it with no offers when missing, then
   * count the entry in its total and in its branch.
   */
  method ComputeStats(records: seq<StudentRecord>) returns (stats: PlacementStats)
    ensures stats == PlacementStatsOf(records)
  {
    var totalCount := |records|;
    var optPlacement := |FilterKey(records, Choice, "Placement")|;
    var higherStudies := |FilterKey(records, Choice, "Higher Studies")|;
    var exempt := |FilterKey(records, Choice, "Placement Exempt")|;
    var placed := |FilterKey(records, Status, "Placed")|;
    var notPlaced := |FilterKey(records, Status, "Not Placed")|;
    var hold := |FilterKey(records, Status, "Hold")|;
    var dropped := |FilterKey(records, Status, "Dropped")|;
    var internshipOnly := |FilterKey(records, Status, "Internship Only")|;
    var totalOffers := OfferCount(records);
    var overallPlacementPercent := PercentTenths(placed, optPlacement);
    var branches := SectionBranches(records);
    var mergedBranches := MergedBranches(records);

    var companyMap := IndexCompanies(records);
    var companies := SortBy(companyMap, NegOffers);
    assert companies == SortedCompanies(records);
    var topRecruiters := companies[..TopCount(|companies|)];
    stats := PlacementStats(
      totalCount, optPlacement, higherStudies, exempt,
      placed, notPlaced, hold, dropped, internshipOnly,
      overallPlacementPercent, totalOffers, |companies|,
      branches, mergedBranches, companies, topRecruiters);
  }

  /** The outer loop of computeStats' company map: every student's entries, in order. */
  method IndexCompanies(records: seq<StudentRecord>) returns (companyMap: seq<CompanyStats>)
    ensures companyMap == CompanyIndex(records)
  {
    companyMap := [];
    for i := 0 to |records|
      invariant companyMap == Tally(Offers(records[..i]))
    {
      var record := records[i];
      OffersStep(records, i);
      companyMap := CountRecord(companyMap, Trim(record.cls), record.companies, Offers(records[..i]));
    }
    assert records[..|records|] == records;
  }

  /** The inner loop of computeStats: count one student's company entries into the map. */
  method CountRecord(companyMap: seq<CompanyStats>, mergedLabel: string, companies: seq<string>,
                     ghost counted: seq<CompanyOffer>) returns (m: seq<CompanyStats>)
    requires companyMap == Tally(counted)
    ensures m == Tally(counted + RecordOffers(mergedLabel, companies))
  {
    m := companyMap;
    assert counted + RecordOffers(mergedLabel, companies[..0]) == counted;
    for j := 0 to |companies|
      invariant m == Tally(counted + RecordOffers(mergedLabel, companies[..j]))
    {
      var rawCompany := companies[j];
      TallyRecordStep(counted, mergedLabel, companies, j);
      if rawCompany == "" {
        continue;
      }
      var company := NormalizeCompany(rawCompany);
      m := CountEntry(m, mergedLabel, company);
    }
    assert companies[..|companies|] == companies;
  }

  /** One company entry: `has`, then `set` with no offers when missing, then the two increments. */
  method CountEntry(companyMap: seq<CompanyStats>, mergedLabel: string, company: string)
    returns (m: seq<CompanyStats>)
    ensures m == AddOffer(companyMap, CompanyOffer(mergedLabel, company))
  {
    m := companyMap;
    if IndexOf(m, Name, company).None? {
      m := m + [CompanyStats(company, 0, [])];
      IndexOfAppend(companyMap, CompanyStats(company, 0, []), Name, company);
    }
    var k := IndexOf(m, Name, company).value;
    var cs := m[k];
    cs := cs.(totalOffers := cs.totalOffers + 1);
    cs := cs.(branchWise := BumpBranch(cs.branchWise, mergedLabel));
    m := m[k := cs];
  }
}
