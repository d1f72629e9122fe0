/**
 * The company index of computeStats: one entry per company name, in the order
 * the names first appear, counting every non-empty company entry of every
 * student and splitting the count by the student's merged branch label.
 *
 * The index is a Map<string, CompanyStats> whose entries are updated in place;
 * here it is an insertion-ordered sequence with distinct names, and the
 * `branchWise` object an insertion-ordered sequence with distinct labels.
 * BumpBranch counts every label as an own property of `branchWise`; the update
 * as written, which reads what Object.prototype supplies for a label such as
 * "constructor", is BumpBranchAsWritten at the end of this module.
 */
module Companies {
  import opened Wrappers
  import opened Text
  import opened Seqs
  import opened Types
  import opened JsObjects

  datatype BranchCount = BranchCount(branch: string, offers: nat)

  datatype CompanyStats = CompanyStats(name: string, totalOffers: nat, branchWise: seq<BranchCount>)

  /** One counted company entry: the merged branch of the student and the normalised company name. */
  datatype CompanyOffer = CompanyOffer(branch: string, company: string)

  function Name(c: CompanyStats): string { c.name }
  function TotalOffers(c: CompanyStats): nat { c.totalOffers }
  function Branch(b: BranchCount): string { b.branch }
  function BranchOffers(b: BranchCount): nat { b.offers }
  function Company(o: CompanyOffer): string { o.company }

  /** `records.reduce((s, r) => s + r.companies.length, 0)`: every company entry, empty or not. */
  function OfferCount(records: seq<StudentRecord>): nat {
    if records == [] then 0
    else OfferCount(records[..|records| - 1]) + |records[|records| - 1].companies|
  }

  /** The company name an entry is counted under: trimmed, with "Citibank PPO" merged into "Citibank". */
  function NormalizeCompany(raw: string): (c: string)
    ensures IsTrimmed(c) && c != "Citibank PPO"
    ensures c == Trim(raw) || (Trim(raw) == "Citibank PPO" && c == "Citibank")
  {
    var t := Trim(raw);
    if t == "Citibank PPO" then "Citibank" else t
  }

  /**
   * The entries one student contributes: every company entry except the empty
   * string, in order. The emptiness test is on the raw entry, so an entry of
   * white space only is counted under the name "".
   */
  function RecordOffers(merged: string, raws: seq<string>): (os: seq<CompanyOffer>)
    ensures |os| <= |raws|
    ensures forall o | o in os :: o.branch == merged && IsTrimmed(o.company) && o.company != "Citibank PPO"
  {
    if raws == [] then []
    else
      var raw := raws[|raws| - 1];
      RecordOffers(merged, raws[..|raws| - 1])
        + (if raw == "" then [] else [CompanyOffer(merged, NormalizeCompany(raw))])
  }

  /** Every counted company entry of the cohort, student by student, labelled with the trimmed class. */
  function Offers(records: seq<StudentRecord>): (os: seq<CompanyOffer>)
    ensures |os| <= OfferCount(records)
    ensures forall o | o in os :: IsTrimmed(o.company) && o.company != "Citibank PPO"
  {
    if records == [] then []
    else
      var r := records[|records| - 1];
      Offers(records[..|records| - 1]) + RecordOffers(Trim(r.cls), r.companies)
  }

  // ---------------------------------------------------------------------------
  // the index and one update

  /** `branchWise[label] = (branchWise[label] ?? 0) + 1`. */
  function BumpBranch(bw: seq<BranchCount>, merged: string): seq<BranchCount> {
    match IndexOf(bw, Branch, merged) {
      case None => bw + [BranchCount(merged, 1)]
      case Some(i) => bw[i := bw[i].(offers := bw[i].offers + 1)]
    }
  }

  /** `cs.totalOffers++` together with the branch count. */
  function Bump(c: CompanyStats, merged: string): CompanyStats {
    c.(totalOffers := c.totalOffers + 1, branchWise := BumpBranch(c.branchWise, merged))
  }

  /** One company entry: create the company with no offers when it is new, then count the entry. */
  function AddOffer(index: seq<CompanyStats>, o: CompanyOffer): seq<CompanyStats> {
    match IndexOf(index, Name, o.company) {
      case None => index + [Bump(CompanyStats(o.company, 0, []), o.branch)]
      case Some(i) => index[i := Bump(index[i], o.branch)]
    }
  }

  /** The index after counting the entries os, in order, into an empty map. */
  function Tally(os: seq<CompanyOffer>): seq<CompanyStats> {
    if os == [] then [] else AddOffer(Tally(os[..|os| - 1]), os[|os| - 1])
  }

  /** The company index of a cohort, before sorting. */
  function CompanyIndex(records: seq<StudentRecord>): seq<CompanyStats> {
    Tally(Offers(records))
  }

  /** The offers counted for a company, 0 when it is not listed. */
  function TotalFor(index: seq<CompanyStats>, name: string): nat {
    match IndexOf(index, Name, name) {
      case None => 0
      case Some(i) => index[i].totalOffers
    }
  }

  /** The offers counted for a branch in a branchWise object, 0 when the key is missing. */
  function CountFor(bw: seq<BranchCount>, merged: string): nat {
    match IndexOf(bw, Branch, merged) {
      case None => 0
      case Some(i) => bw[i].offers
    }
  }

  /** The offers counted for a company in one branch. */
  function BranchFor(index: seq<CompanyStats>, name: string, merged: string): nat {
    match IndexOf(index, Name, name) {
      case None => 0
      case Some(i) => CountFor(index[i].branchWise, merged)
    }
  }

  /** An entry of the index: its branch counts have distinct labels, are positive and add up to its total, which is positive. */
  predicate ValidEntry(c: CompanyStats) {
    && DistinctKeys(c.branchWise, Branch)
    && (forall k | 0 <= k < |c.branchWise| :: c.branchWise[k].offers >= 1)
    && c.totalOffers == SumBy(c.branchWise, BranchOffers)
    && c.totalOffers >= 1
  }

  /** The index as a Map: distinct names, every entry valid. */
  predicate ValidIndex(index: seq<CompanyStats>) {
    DistinctKeys(index, Name) && forall k | 0 <= k < |index| :: ValidEntry(index[k])
  }

  // ---------------------------------------------------------------------------
  // what one update does

  /** `branchWise[label]` grows by one for the label bumped and stays put for every other label. */
  lemma BumpBranchCount(bw: seq<BranchCount>, merged: string, l: string)
    ensures CountFor(BumpBranch(bw, merged), l) == CountFor(bw, l) + (if l == merged then 1 else 0)
  {
    if IndexOf(bw, Branch, merged).None? {
      BumpNewCount(bw, merged, l);
    } else {
      BumpExistingCount(bw, IndexOf(bw, Branch, merged).value, merged, l);
    }
  }

  /** Bumping a missing label appends it with one offer and leaves every other label alone. */
  lemma BumpNewCount(bw: seq<BranchCount>, merged: string, l: string)
    requires IndexOf(bw, Branch, merged).None?
    ensures CountFor(BumpBranch(bw, merged), l) == CountFor(bw, l) + (if l == merged then 1 else 0)
  {
    var b := BranchCount(merged, 1);
    assert BumpBranch(bw, merged) == bw + [b];
    IndexOfAppend(bw, b, Branch, l);
    match IndexOf(bw, Branch, l) {
      case None =>
        assert (bw + [b])[|bw|] == b;
      case Some(j) =>
        assert (bw + [b])[j] == bw[j];
    }
  }

  /** Bumping a label already present adds one at its position only. */
  lemma BumpExistingCount(bw: seq<BranchCount>, i: nat, merged: string, l: string)
    requires IndexOf(bw, Branch, merged) == Some(i)
    ensures CountFor(BumpBranch(bw, merged), l) == CountFor(bw, l) + (if l == merged then 1 else 0)
  {
    var bw' := bw[i := bw[i].(offers := bw[i].offers + 1)];
    assert BumpBranch(bw, merged) == bw';
    IndexOfUpdate(bw, i, bw[i].(offers := bw[i].offers + 1), Branch, l);
    match IndexOf(bw, Branch, l) {
      case None =>
      case Some(j) =>
        assert j == i <==> l == merged;
    }
  }

  lemma BumpValid(c: CompanyStats, merged: string)
    requires c.totalOffers == SumBy(c.branchWise, BranchOffers)
    requires DistinctKeys(c.branchWise, Branch)
    requires forall k | 0 <= k < |c.branchWise| :: c.branchWise[k].offers >= 1
    ensures ValidEntry(Bump(c, merged))
  {
    var bw := c.branchWise;
    var bw' := BumpBranch(bw, merged);
    assert Bump(c, merged).branchWise == bw';
    match IndexOf(bw, Branch, merged) {
      case None =>
        var b := BranchCount(merged, 1);
        assert bw' == bw + [b];
        assert bw'[..|bw|] == bw;
        assert SumBy(bw', BranchOffers) == SumBy(bw, BranchOffers) + 1;
      case Some(i) =>
        var b := bw[i].(offers := bw[i].offers + 1);
        assert bw' == bw[i := b];
        SumByUpdate(bw, i, b, BranchOffers);
        assert SumBy(bw', BranchOffers) == SumBy(bw, BranchOffers) + 1;
    }
  }

  lemma AddOfferValid(index: seq<CompanyStats>, o: CompanyOffer)
    requires ValidIndex(index)
    ensures ValidIndex(AddOffer(index, o))
  {
    var index' := AddOffer(index, o);
    match IndexOf(index, Name, o.company) {
      case None =>
        var c := Bump(CompanyStats(o.company, 0, []), o.branch);
        assert index' == index + [c];
        BumpValid(CompanyStats(o.company, 0, []), o.branch);
        assert forall k | 0 <= k < |index| :: index'[k] == index[k];
      case Some(i) =>
        var c := Bump(index[i], o.branch);
        assert index' == index[i := c];
        BumpValid(index[i], o.branch);
        assert forall k | 0 <= k < |index| && k != i :: index'[k] == index[k];
    }
  }

  /** One entry adds one to the total of its company and to no other. */
  lemma AddOfferTotal(index: seq<CompanyStats>, o: CompanyOffer, name: string)
    ensures TotalFor(AddOffer(index, o), name) == TotalFor(index, name) + (if name == o.company then 1 else 0)
  {
    match IndexOf(index, Name, o.company) {
      case None =>
        IndexOfAppend(index, Bump(CompanyStats(o.company, 0, []), o.branch), Name, name);
      case Some(i) =>
        IndexOfUpdate(index, i, Bump(index[i], o.branch), Name, name);
    }
  }

  /** One entry adds one to the count of its company in its branch and to no other count. */
  lemma AddOfferBranch(index: seq<CompanyStats>, o: CompanyOffer, name: string, merged: string)
    ensures BranchFor(AddOffer(index, o), name, merged)
         == BranchFor(index, name, merged) + (if o == CompanyOffer(merged, name) then 1 else 0)
  {
    match IndexOf(index, Name, o.company) {
      case None =>
        IndexOfAppend(index, Bump(CompanyStats(o.company, 0, []), o.branch), Name, name);
        BumpBranchCount([], o.branch, merged);
      case Some(i) =>
        IndexOfUpdate(index, i, Bump(index[i], o.branch), Name, name);
        BumpBranchCount(index[i].branchWise, o.branch, merged);
    }
  }

  lemma AddOfferSum(index: seq<CompanyStats>, o: CompanyOffer)
    ensures SumBy(AddOffer(index, o), TotalOffers) == SumBy(index, TotalOffers) + 1
  {
    var index' := AddOffer(index, o);
    match IndexOf(index, Name, o.company) {
      case None =>
        var c := Bump(CompanyStats(o.company, 0, []), o.branch);
        assert index' == index + [c];
        assert index'[..|index|] == index;
      case Some(i) =>
        var c := Bump(index[i], o.branch);
        assert index' == index[i := c];
        SumByUpdate(index, i, c, TotalOffers);
    }
  }

  // ---------------------------------------------------------------------------
  // what the whole index holds

  /** The index is a proper map whose entries are consistent. */
  lemma {:induction false} TallyValid(os: seq<CompanyOffer>)
    ensures ValidIndex(Tally(os))
  {
    if os != [] {
      TallyValid(os[..|os| - 1]);
      AddOfferValid(Tally(os[..|os| - 1]), os[|os| - 1]);
    }
  }

  /**
   * Each company's total is the number of entries with its name, and each of
   * its branch counts the number of entries with that name and that branch.
   */
  lemma TallyCounts(os: seq<CompanyOffer>, name: string, merged: string)
    ensures TotalFor(Tally(os), name) == |FilterKey(os, Company, name)|
    ensures BranchFor(Tally(os), name, merged) == |FilterKey(os, Id, CompanyOffer(merged, name))|
  {
    TallyTotal(os, name);
    TallyBranch(os, name, merged);
  }

  lemma {:induction false} TallyTotal(os: seq<CompanyOffer>, name: string)
    ensures TotalFor(Tally(os), name) == |FilterKey(os, Company, name)|
  {
    if os != [] {
      var init, last := os[..|os| - 1], os[|os| - 1];
      TallyTotal(init, name);
      AddOfferTotal(Tally(init), last, name);
      FilterKeyLast(os, Company, name);
    }
  }

  lemma {:induction false} TallyBranch(os: seq<CompanyOffer>, name: string, merged: string)
    ensures BranchFor(Tally(os), name, merged) == |FilterKey(os, Id, CompanyOffer(merged, name))|
  {
    if os != [] {
      var init, last := os[..|os| - 1], os[|os| - 1];
      TallyBranch(init, name, merged);
      AddOfferBranch(Tally(init), last, name, merged);
      FilterKeyLast(os, Id, CompanyOffer(merged, name));
    }
  }

  /** The totals add up to the number of entries counted. */
  lemma {:induction false} TallySum(os: seq<CompanyOffer>)
    ensures SumBy(Tally(os), TotalOffers) == |os|
  {
    if os != [] {
      TallySum(os[..|os| - 1]);
      AddOfferSum(Tally(os[..|os| - 1]), os[|os| - 1]);
    }
  }

  /** A company is listed exactly when some entry carries its name. */
  lemma TallyListed(os: seq<CompanyOffer>, name: string)
    ensures IndexOf(Tally(os), Name, name).Some? <==> exists o | o in os :: o.company == name
  {
    TallyValid(os);
    TallyCounts(os, name, "");
    var f := FilterKey(os, Company, name);
    if f != [] {
      assert f[0] in f;
      FilterKeyMember(os, Company, name, f[0]);
    }
    if exists o | o in os :: o.company == name {
      var o :| o in os && o.company == name;
      FilterKeyMember(os, Company, name, o);
    }
  }

  /** Counting one more entry is one more AddOffer. */
  lemma TallyStep(os: seq<CompanyOffer>, o: CompanyOffer)
    ensures Tally(os + [o]) == AddOffer(Tally(os), o)
  {
    assert (os + [o])[..|os|] == os;
  }

  /** The entries of one more company cell. */
  lemma RecordOffersStep(counted: seq<CompanyOffer>, merged: string, raws: seq<string>, j: nat)
    requires j < |raws|
    ensures counted + RecordOffers(merged, raws[..j + 1])
         == (counted + RecordOffers(merged, raws[..j]))
            + (if raws[j] == "" then [] else [CompanyOffer(merged, NormalizeCompany(raws[j]))])
  {
    assert raws[..j + 1][..j] == raws[..j];
  }

  /** The index after one more company cell: unchanged for an empty cell, one more AddOffer otherwise. */
  lemma TallyRecordStep(counted: seq<CompanyOffer>, merged: string, raws: seq<string>, j: nat)
    requires j < |raws|
    ensures Tally(counted + RecordOffers(merged, raws[..j + 1]))
         == if raws[j] == "" then Tally(counted + RecordOffers(merged, raws[..j]))
            else AddOffer(Tally(counted + RecordOffers(merged, raws[..j])), CompanyOffer(merged, NormalizeCompany(raws[j])))
  {
    var e := counted + RecordOffers(merged, raws[..j]);
    RecordOffersStep(counted, merged, raws, j);
    if raws[j] == "" {
      assert e + [] == e;
    } else {
      var o := CompanyOffer(merged, NormalizeCompany(raws[j]));
      assert counted + RecordOffers(merged, raws[..j + 1]) == e + [o];
      TallyStep(e, o);
    }
  }

  /** The entries of one more student. */
  lemma OffersStep(records: seq<StudentRecord>, i: nat)
    requires i < |records|
    ensures Offers(records[..i + 1]) == Offers(records[..i]) + RecordOffers(Trim(records[i].cls), records[i].companies)
  {
    assert records[..i + 1][..i] == records[..i];
  }

  /**
   * What an entry of the index holds, wherever it sits: a valid entry whose
   * total counts the entries carrying its name and whose count for a branch
   * counts the entries carrying its name and that branch.
   */
  lemma TallyEntry(os: seq<CompanyOffer>, p: nat, merged: string)
    requires p < |Tally(os)|
    ensures ValidEntry(Tally(os)[p])
    ensures Tally(os)[p].totalOffers == |FilterKey(os, Company, Tally(os)[p].name)|
    ensures CountFor(Tally(os)[p].branchWise, merged)
         == |FilterKey(os, Id, CompanyOffer(merged, Tally(os)[p].name))|
  {
    var index := Tally(os);
    TallyValid(os);
    IndexOfDistinct(index, Name, p);
    TallyCounts(os, index[p].name, merged);
  }

  /** A student's entries: exactly the non-empty cells, normalised and labelled. */
  lemma RecordOffersMember(merged: string, raws: seq<string>, o: CompanyOffer)
    ensures o in RecordOffers(merged, raws)
        <==> exists raw | raw in raws :: raw != "" && o == CompanyOffer(merged, NormalizeCompany(raw))
  {
    RecordOffersCollect(merged, raws);
    CollectMemberIn(raws, NonEmpty, OfferOf(merged), o);
  }

  predicate NonEmpty(raw: string) { raw != "" }

  function OfferOf(merged: string): string -> CompanyOffer {
    raw => CompanyOffer(merged, NormalizeCompany(raw))
  }

  /** RecordOffers is the loop over the cells that keeps the non-empty ones. */
  lemma {:induction false} RecordOffersCollect(merged: string, raws: seq<string>)
    ensures RecordOffers(merged, raws) == Collect(raws, NonEmpty, OfferOf(merged))
  {
    if raws != [] {
      RecordOffersCollect(merged, raws[..|raws| - 1]);
    }
  }

  /**
   * The counted entries of a cohort: exactly one per non-empty company cell of
   * each student, labelled with the student's trimmed class.
   */
  lemma {:induction false} OffersMember(records: seq<StudentRecord>, o: CompanyOffer)
    ensures o in Offers(records)
        <==> exists r, raw | r in records && raw in r.companies ::
               raw != "" && o == CompanyOffer(Trim(r.cls), NormalizeCompany(raw))
  {
    if records != [] {
      var init, last := records[..|records| - 1], records[|records| - 1];
      assert records == init + [last];
      assert Offers(records) == Offers(init) + RecordOffers(Trim(last.cls), last.companies);
      OffersMember(init, o);
      RecordOffersMember(Trim(last.cls), last.companies, o);
      if o in Offers(init) {
        var r, raw :| r in init && raw in r.companies && raw != "" && o == CompanyOffer(Trim(r.cls), NormalizeCompany(raw));
        assert r in records;
      } else if o in RecordOffers(Trim(last.cls), last.companies) {
        var raw :| raw in last.companies && raw != "" && o == CompanyOffer(Trim(last.cls), NormalizeCompany(raw));
        assert last in records;
      } else {
        forall r, raw | r in records && raw in r.companies && raw != ""
          ensures o != CompanyOffer(Trim(r.cls), NormalizeCompany(raw))
        {
          if r != last {
            assert r in init;
          }
        }
      }
    }
  }

  // ---------------------------------------------------------------------------
  // the branchWise update as written

  /** A property value of `branchWise` as the source can leave it: a number, or a string made by `+`. */
  datatype PropValue = Num(n: nat) | Str(s: string)

  datatype BranchEntry = BranchEntry(branch: string, value: PropValue)

  function EntryBranch(b: BranchEntry): string { b.branch }

  /** The part of an entry that counts as a number of offers: none for a string. */
  function NumericOffers(b: BranchEntry): nat { if b.value.Num? then b.value.n else 0 }

  /** `v + 1`: a number grows by one, a string gets "1" appended. */
  function PlusOne(v: PropValue): PropValue {
    match v
    case Num(n) => Num(n + 1)
    case Str(t) => Str(t + "1")
  }

  /**
   * `branchWise[label] = (branchWise[label] ?? 0) + 1` on the plain object
   * `{}` as written: a label the object does not own reads what
   * Object.prototype supplies, which is not nullish, so `+ 1` concatenates
   * to its text; assigning that string to `__proto__` is ignored.
   */
  function BumpBranchAsWritten(bw: seq<BranchEntry>, merged: string): seq<BranchEntry> {
    match IndexOf(bw, EntryBranch, merged)
    case Some(i) => bw[i := bw[i].(value := PlusOne(bw[i].value))]
    case None =>
      match InheritedProperty(merged)
      case None => bw + [BranchEntry(merged, Num(1))]
      case Some(v) => if merged == "__proto__" then bw else bw + [BranchEntry(merged, Str(v + "1"))]
  }

  /** A branch count of the model seen as an own number-valued property of the object. */
  function AsEntry(b: BranchCount): BranchEntry {
    BranchEntry(b.branch, Num(b.offers))
  }

  /**
   * For a label the object already owns, or one Object.prototype does not
   * supply, the update as written is the model's BumpBranch.
   */
  lemma BumpBranchAsWrittenAgrees(bw: seq<BranchCount>, merged: string)
    requires IndexOf(bw, Branch, merged).Some? || InheritedProperty(merged).None?
    ensures BumpBranchAsWritten(Map(bw, AsEntry), merged) == Map(BumpBranch(bw, merged), AsEntry)
  {
    if IndexOf(bw, Branch, merged).None? {
      AgreesOnNewLabel(bw, merged);
    } else {
      AgreesOnOwnedLabel(bw, merged, IndexOf(bw, Branch, merged).value);
    }
  }

  lemma AgreesOnNewLabel(bw: seq<BranchCount>, merged: string)
    requires IndexOf(bw, Branch, merged).None? && InheritedProperty(merged).None?
    ensures BumpBranchAsWritten(Map(bw, AsEntry), merged) == Map(BumpBranch(bw, merged), AsEntry)
  {
    var b := BranchCount(merged, 1);
    EntriesIndex(bw, merged);
    BumpBranchAsWrittenPlain(Map(bw, AsEntry), merged);
    assert BumpBranch(bw, merged) == bw + [b];
    MapAppend(bw, [b], AsEntry);
  }

  lemma AgreesOnOwnedLabel(bw: seq<BranchCount>, merged: string, i: nat)
    requires IndexOf(bw, Branch, merged) == Some(i)
    ensures BumpBranchAsWritten(Map(bw, AsEntry), merged) == Map(BumpBranch(bw, merged), AsEntry)
  {
    OwnedAsWritten(bw, merged, i);
    OwnedModel(bw, merged, i);
  }

  lemma OwnedAsWritten(bw: seq<BranchCount>, merged: string, i: nat)
    requires IndexOf(bw, Branch, merged) == Some(i)
    ensures BumpBranchAsWritten(Map(bw, AsEntry), merged) == Map(bw, AsEntry)[i := AsEntry(bw[i].(offers := bw[i].offers + 1))]
  {
    EntriesIndex(bw, merged);
    BumpBranchAsWrittenOwned(Map(bw, AsEntry), merged, i, bw[i]);
  }

  /** Seen as entries, the branch counts have the same labels in the same places. */
  lemma EntriesIndex(bw: seq<BranchCount>, merged: string)
    ensures IndexOf(Map(bw, AsEntry), EntryBranch, merged) == IndexOf(bw, Branch, merged)
    ensures forall j | 0 <= j < |bw| :: Map(bw, AsEntry)[j] == AsEntry(bw[j])
  {
    IndexOfSameKeys(bw, Map(bw, AsEntry), Branch, EntryBranch, merged);
  }

  lemma OwnedModel(bw: seq<BranchCount>, merged: string, i: nat)
    requires IndexOf(bw, Branch, merged) == Some(i)
    ensures Map(BumpBranch(bw, merged), AsEntry) == Map(bw, AsEntry)[i := AsEntry(bw[i].(offers := bw[i].offers + 1))]
  {
    BumpBranchOwned(bw, merged, i);
    MapUpdate(bw, i, bw[i].(offers := bw[i].offers + 1), AsEntry);
  }

  lemma BumpBranchOwned(bw: seq<BranchCount>, merged: string, i: nat)
    requires IndexOf(bw, Branch, merged) == Some(i)
    ensures BumpBranch(bw, merged) == bw[i := bw[i].(offers := bw[i].offers + 1)]
  {
  }

  lemma AsEntryPlusOne(c: BranchCount)
    ensures AsEntry(c).(value := PlusOne(AsEntry(c).value)) == AsEntry(c.(offers := c.offers + 1))
  {
  }

  lemma BumpBranchAsWrittenPlain(es: seq<BranchEntry>, merged: string)
    requires IndexOf(es, EntryBranch, merged).None? && InheritedProperty(merged).None?
    ensures BumpBranchAsWritten(es, merged) == es + [BranchEntry(merged, Num(1))]
  {
  }

  lemma BumpBranchAsWrittenOwned(es: seq<BranchEntry>, merged: string, i: nat, c: BranchCount)
    requires IndexOf(es, EntryBranch, merged) == Some(i) && es[i] == AsEntry(c)
    ensures BumpBranchAsWritten(es, merged) == es[i := AsEntry(c.(offers := c.offers + 1))]
  {
    AsEntryPlusOne(c);
  }

  /**
   * For a label Object.prototype supplies and the object does not own, the
   * update as written adds nothing to the numeric branch counts, although
   * `totalOffers` still rises by one: the counts no longer add up to the total.
   */
  lemma BumpBranchAsWrittenLosesOffer(bw: seq<BranchEntry>, merged: string)
    requires IndexOf(bw, EntryBranch, merged).None? && InheritedProperty(merged).Some?
    ensures SumBy(BumpBranchAsWritten(bw, merged), NumericOffers) == SumBy(bw, NumericOffers)
    ensures forall j | 0 <= j < |BumpBranchAsWritten(bw, merged)| ::
              EntryBranch(BumpBranchAsWritten(bw, merged)[j]) == merged ==> BumpBranchAsWritten(bw, merged)[j].value.Str?
  {
    if merged != "__proto__" {
      var e := BranchEntry(merged, Str(InheritedProperty(merged).value + "1"));
      assert BumpBranchAsWritten(bw, merged) == bw + [e];
      SumByAppend(bw, [e], NumericOffers);
      assert [e][..0] == [];
    }
  }

  /**
   * The class "constructor": the first entry stores the text of the Object
   * function followed by "1", the second by "11"; the class "__proto__"
   * stores nothing. The model counts one offer under either label.
   */
  lemma BumpBranchAsWrittenConstructor(c: string, p: string)
    requires c == "constructor" && p == "__proto__"
    ensures BumpBranchAsWritten([], c) == [BranchEntry(c, Str(OBJECT_SOURCE + "1"))]
    ensures BumpBranchAsWritten(BumpBranchAsWritten([], c), c) == [BranchEntry(c, Str(OBJECT_SOURCE + "11"))]
    ensures BumpBranchAsWritten([], p) == []
    ensures BumpBranch([], c) == [BranchCount(c, 1)] && BumpBranch([], p) == [BranchCount(p, 1)]
  {
    var once := [BranchEntry(c, Str(OBJECT_SOURCE + "1"))];
    assert BumpBranchAsWritten([], c) == once;
    assert IndexOf(once, EntryBranch, c) == Some(0);
    assert OBJECT_SOURCE + "1" + "1" == OBJECT_SOURCE + "11";
  }
}
