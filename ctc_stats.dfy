/**
 * The offer side of the aggregation engine: salary (CTC) statistics over the
 * placement offers, the count of offers per type, and the month-by-month
 * timeline of all offers.
 */
module CtcStats {
  import opened Wrappers
  import opened Text
  import opened Seqs
  import opened Types
  import opened Rounding
  import opened JsObjects

  // ---------------------------------------------------------------------------
  // salary figures

  /**
   * `offers.filter(o => o.offerType !== 'Internship').map(o => o.ctc).filter(c => c > 0)`:
   * the positive salaries of the offers that are not internships, in order.
   */
  function PlacementCtcs(offers: seq<OfferRecord>): (ctcs: seq<int>)
    ensures |ctcs| <= |offers|
    ensures forall c | c in ctcs :: c > 0
  {
    if offers == [] then []
    else
      var o := offers[0];
      (if o.offerType != Internship && o.ctc > 0 then [o.ctc] else []) + PlacementCtcs(offers[1..])
  }

  /** A salary is counted exactly when some non-internship offer carries it and it is positive. */
  lemma {:induction false} PlacementCtcsMember(offers: seq<OfferRecord>, c: int)
    ensures c in PlacementCtcs(offers) <==> exists o | o in offers :: o.offerType != Internship && o.ctc == c && c > 0
  {
    if offers != [] {
      PlacementCtcsMember(offers[1..], c);
      assert offers == [offers[0]] + offers[1..];
      assert forall o | o in offers[1..] :: o in offers;
    }
  }

  /** `ctcs.reduce((s, c) => s + c, 0)`. */
  function Sum(s: seq<int>): int {
    if s == [] then 0 else Sum(s[..|s| - 1]) + s[|s| - 1]
  }

  /** Values within [lo, hi] add up to between lo and hi times their number. */
  lemma {:induction false} SumBetween(s: seq<int>, lo: int, hi: int)
    requires forall x | x in s :: lo <= x <= hi
    ensures lo * |s| <= Sum(s) <= hi * |s|
  {
    if s != [] {
      var init := s[..|s| - 1];
      assert forall x | x in init :: x in s;
      assert s[|s| - 1] in s;
      SumBetween(init, lo, hi);
      MulSucc(lo, |init|);
      MulSucc(hi, |init|);
    }
  }

  lemma MulSucc(c: int, n: nat)
    ensures c * (n + 1) == c * n + c
  {
  }

  /** The middle value of a sorted sequence: the middle one, or the rounded mean of the middle two. */
  function Median(sorted: seq<int>): int {
    var n := |sorted|;
    if n == 0 then 0
    else if n % 2 == 0 then RoundDiv(sorted[n / 2 - 1] + sorted[n / 2], 2)
    else sorted[n / 2]
  }

  // ---------------------------------------------------------------------------
  // offers per type

  function TypeOf(o: OfferRecord): OfferType { o.offerType }

  const ALL_OFFER_TYPES: seq<OfferType> := [Internship, Regular, Dream, Marquee, SuperDream]

  /** The offer-type map of computeCtcStats: every type starts at zero. */
  function TypeCounts(offers: seq<OfferRecord>): map<OfferType, nat> {
    map[
      Internship := |FilterKey(offers, TypeOf, Internship)|,
      Regular := |FilterKey(offers, TypeOf, Regular)|,
      Dream := |FilterKey(offers, TypeOf, Dream)|,
      Marquee := |FilterKey(offers, TypeOf, Marquee)|,
      SuperDream := |FilterKey(offers, TypeOf, SuperDream)|]
  }

  lemma TypeCountsCover(offers: seq<OfferRecord>)
    ensures forall t: OfferType :: t in TypeCounts(offers) && TypeCounts(offers)[t] == |FilterKey(offers, TypeOf, t)|
  {
    forall t: OfferType ensures t in TypeCounts(offers) && TypeCounts(offers)[t] == |FilterKey(offers, TypeOf, t)| {
      match t
      case Internship =>
      case Regular =>
      case Dream =>
      case Marquee =>
      case SuperDream =>
    }
  }

  /** The number of offers of each type, every type present. */
  function BreakdownOf(offers: seq<OfferRecord>): (b: map<OfferType, nat>)
    ensures forall t: OfferType :: t in b && b[t] == |FilterKey(offers, TypeOf, t)|
  {
    TypeCountsCover(offers);
    TypeCounts(offers)
  }

  /** Every offer has exactly one of the five types: the counts add up to the number of offers. */
  lemma BreakdownTotal(offers: seq<OfferRecord>)
    ensures var b := BreakdownOf(offers);
      b[Internship] + b[Regular] + b[Dream] + b[Marquee] + b[SuperDream] == |offers|
  {
    var vs := ALL_OFFER_TYPES;
    assert Distinct(vs);
    forall o | o in offers ensures TypeOf(o) in vs {
      match o.offerType
      case Internship => assert vs[0] == Internship;
      case Regular => assert vs[1] == Regular;
      case Dream => assert vs[2] == Dream;
      case Marquee => assert vs[3] == Marquee;
      case SuperDream => assert vs[4] == SuperDream;
    }
    SumKeyCountsCover(offers, TypeOf, vs);
    assert SumKeyCounts(offers, TypeOf, vs[4..]) == |FilterKey(offers, TypeOf, vs[4])| + SumKeyCounts(offers, TypeOf, []);
    assert SumKeyCounts(offers, TypeOf, vs[3..]) == |FilterKey(offers, TypeOf, vs[3])| + SumKeyCounts(offers, TypeOf, vs[4..]);
    assert SumKeyCounts(offers, TypeOf, vs[2..]) == |FilterKey(offers, TypeOf, vs[2])| + SumKeyCounts(offers, TypeOf, vs[3..]);
    assert SumKeyCounts(offers, TypeOf, vs[1..]) == |FilterKey(offers, TypeOf, vs[1])| + SumKeyCounts(offers, TypeOf, vs[2..]);
  }

  // ---------------------------------------------------------------------------
  // month keys

  /** A month of the timeline: the label shown and the key it is ordered by. */
  datatype MonthKey = MonthKey(name: string, sortKey: string)

  datatype MonthlyOffer = MonthlyOffer(name: string, sortKey: string, count: nat)

  const MONTHS: seq<string> := ["Jan", "Feb", "Mar", "Apr", "May", "Jun", "Jul", "Aug", "Sep", "Oct", "Nov", "Dec"]

  /** Where an abbreviation first stands in a list of them. */
  function Position(mon: string, months: seq<string>): (i: nat)
    requires mon in months
    ensures i < |months| && months[i] == mon
  {
    if months[0] == mon then 0 else 1 + Position(mon, months[1..])
  }

  /** A number under 100 written with two digits, zero-padded. */
  function TwoDigits(n: nat): (s: string)
    requires n < 100
    ensures |s| == 2 && AllDigits(s)
    ensures 10 * DigitValue(s[0]) + DigitValue(s[1]) == n
  {
    [DigitChar(n / 10), DigitChar(n % 10)]
  }

  /**
   * MONTH_NUM[mon]: the twelve abbreviations, in calendar order, map to their
   * position counted from 1 as two zero-padded digits ("Jan" to "01", "Dec"
   * to "12"); no other name has a number.
   */
  function MonthNum(mon: string): (num: Option<string>)
    ensures num.Some? <==> mon in MONTHS
    ensures num.Some? ==> |num.value| == 2 && AllDigits(num.value)
  {
    if mon in MONTHS then Some(TwoDigits(Position(mon, MONTHS) + 1)) else None
  }

  /** Different months have different numbers. */
  lemma MonthNumInjective(a: string, b: string)
    requires MonthNum(a).Some? && MonthNum(a) == MonthNum(b)
    ensures a == b
  {
    var na, nb := MonthNum(a).value, MonthNum(b).value;
    assert 10 * DigitValue(na[0]) + DigitValue(na[1]) == 10 * DigitValue(nb[0]) + DigitValue(nb[1]);
  }

  /** The twelve abbreviations are distinct. */
  lemma MonthsDistinct()
    ensures forall i, j | 0 <= i < j < |MONTHS| :: MONTHS[i] != MONTHS[j]
  {
    forall i, j | 0 <= i < j < |MONTHS| ensures MONTHS[i] != MONTHS[j] {
      assert MONTHS[i][0] != MONTHS[j][0] || MONTHS[i][1] != MONTHS[j][1] || MONTHS[i][2] != MONTHS[j][2];
    }
  }

  /** The month at calendar position i (from 0) has the number i + 1. */
  lemma MonthNumOfPosition(i: nat)
    requires i < |MONTHS|
    ensures MonthNum(MONTHS[i]) == Some(TwoDigits(i + 1))
  {
    MonthsDistinct();
    PositionAt(MONTHS[i], MONTHS, i);
  }

  /** Two-digit renderings are in code order exactly as their numbers are. */
  lemma TwoDigitsLess(a: nat, b: nat)
    requires a < b < 100
    ensures StrLess(TwoDigits(a), TwoDigits(b))
  {
    TwoDigitsValue(a);
    TwoDigitsValue(b);
    StrLessDigits(TwoDigits(a), TwoDigits(b));
  }

  lemma TwoDigitsValue(n: nat)
    requires n < 100
    ensures DecimalValue(TwoDigits(n)) == n
  {
    var t := TwoDigits(n);
    var h := t[..1];
    assert h[..0] == [] && h[0] == t[0] && t[..|t| - 1] == h;
    assert DecimalValue(h) == DigitValue(t[0]);
    assert DecimalValue(t) == 10 * DecimalValue(h) + DigitValue(t[1]);
  }

  /** A later month of the calendar has a greater number. */
  lemma MonthNumCalendar(i: nat, j: nat)
    requires i < j < |MONTHS|
    ensures MonthNum(MONTHS[i]).Some? && MonthNum(MONTHS[j]).Some?
    ensures StrLess(MonthNum(MONTHS[i]).value, MonthNum(MONTHS[j]).value)
  {
    MonthNumOfPosition(i);
    MonthNumOfPosition(j);
    TwoDigitsLess(i + 1, j + 1);
  }

  /**
   * Sort keys follow the calendar: for years written with the same number of
   * digits, an earlier year, or the same year and an earlier month, gives a
   * smaller key.
   */
  lemma SortKeyChronological(ya: string, ma: string, yb: string, mb: string)
    requires ma in MONTHS && mb in MONTHS
    requires AllDigits(ya) && AllDigits(yb) && |ya| == |yb|
    requires DecimalValue(ya) < DecimalValue(yb)
          || (ya == yb && Position(ma, MONTHS) < Position(mb, MONTHS))
    ensures StrLess(ya + "-" + MonthNum(ma).value, yb + "-" + MonthNum(mb).value)
  {
    var na, nb := MonthNum(ma).value, MonthNum(mb).value;
    if DecimalValue(ya) < DecimalValue(yb) {
      DatedKeyYears(ya, na, yb, nb);
    } else {
      var pa, pb := Position(ma, MONTHS), Position(mb, MONTHS);
      MonthNumValue(ma);
      MonthNumValue(mb);
      TwoDigitsLess(pa + 1, pb + 1);
      DatedKeyMonths(ya, na, nb);
    }
  }

  lemma MonthNumValue(mon: string)
    requires mon in MONTHS
    ensures MonthNum(mon) == Some(TwoDigits(Position(mon, MONTHS) + 1))
  {
  }

  /** `yr.slice(2)`: the year without its first two characters. */
  function DropCentury(yr: string): (r: string)
    ensures |yr| >= 2 ==> yr == yr[..2] + r
    ensures |yr| < 2 ==> r == ""
  {
    if |yr| >= 2 then yr[2..] else ""
  }

  /**
   * parseMonthKey: "30-Jul-2025" gives the label "Jul '25" and the sort key
   * "2025-07". The trimmed date must split on '-' into at least three pieces,
   * the second a month abbreviation and the third a non-empty year.
   */
  function ParseMonthKey(dateStr: string): (k: Option<MonthKey>)
    ensures k.Some? <==>
      var parts := Split(Trim(dateStr), '-');
      |parts| >= 3 && parts[1] in MONTHS && parts[2] != ""
    ensures k.Some? ==>
      var parts := Split(Trim(dateStr), '-');
      && k.value.name == parts[1] + " '" + DropCentury(parts[2])
      && k.value.sortKey == parts[2] + "-" + MonthNum(parts[1]).value
  {
    var parts := Split(Trim(dateStr), '-');
    if |parts| < 3 then None
    else
      var mon := parts[1];
      var yr := parts[2];
      var num := MonthNum(mon);
      if num.None? || yr == "" then None
      else Some(MonthKey(mon + " '" + DropCentury(yr), yr + "-" + num.value))
  }

  /** The example date of the source's comment is trimmed and splits into day, month and year. */
  lemma ExampleDatePieces()
    ensures Split(Trim("30-Jul-2025"), '-') == ["30", "Jul", "2025"]
  {
    var d := "30-Jul-2025";
    CharsEqual(d, "30" + "-" + "Jul" + "-" + "2025");
    assert d[0] == '3' && d[|d| - 1] == '5';
    assert forall i | 0 <= i < 2 :: "30"[i] != '-';
    assert forall i | 0 <= i < 3 :: "Jul"[i] != '-';
    assert forall i | 0 <= i < 4 :: "2025"[i] != '-';
    DatePieces("30", "Jul", "2025");
  }

  lemma JulyNumber()
    ensures "Jul" in MONTHS && MonthNum("Jul") == Some("07")
  {
    JulyIsSeventh();
    PositionAt("Jul", MONTHS, 6);
    SevenIsTwoDigits();
  }

  /** "Jul" is the seventh month and none before it. */
  lemma JulyIsSeventh()
    ensures MONTHS[6] == "Jul"
    ensures forall j | 0 <= j < 6 :: MONTHS[j] != "Jul"
  {
    var m := "Jul";
    forall j | 0 <= j < 6 ensures MONTHS[j] != m {
      if j == 0 { assert MONTHS[j][1] != m[1]; }
      else if j == 5 { assert MONTHS[j][2] != m[2]; }
      else { assert MONTHS[j][0] != m[0]; }
    }
  }

  lemma SevenIsTwoDigits()
    ensures TwoDigits(7) == "07"
  {
    var t := TwoDigits(7);
    assert t[0] == '0' && t[1] == '7';
  }

  /** The position of the first occurrence. */
  lemma {:induction false} PositionAt(mon: string, months: seq<string>, i: nat)
    requires i < |months| && months[i] == mon
    requires forall j | 0 <= j < i :: months[j] != mon
    ensures Position(mon, months) == i
  {
    if i > 0 {
      assert forall j | 0 <= j < i - 1 :: months[1..][j] == months[j + 1];
      PositionAt(mon, months[1..], i - 1);
    }
  }

  /** The example of the source's comment. */
  lemma ParseMonthKeyExample(d: string)
    requires d == "30-Jul-2025"
    ensures ParseMonthKey(d) == Some(MonthKey("Jul '25", "2025-07"))
  {
    JulyNumber();
    ExampleDatePieces();
    ParseMonthKeyOfPieces(d, "30", "Jul", "2025");
    ExampleKey();
  }

  /** A trimmed date of three '-' pieces, the second a month and the third not empty, gives its key. */
  lemma ParseMonthKeyOfPieces(d: string, day: string, mon: string, yr: string)
    requires Split(Trim(d), '-') == [day, mon, yr]
    requires mon in MONTHS && yr != ""
    ensures ParseMonthKey(d) == Some(MonthKey(mon + " '" + DropCentury(yr), yr + "-" + MonthNum(mon).value))
  {
  }

  /** The label and sort key of the example, written out. */
  lemma ExampleKey()
    ensures "Jul" + " '" + DropCentury("2025") == "Jul '25"
    ensures "2025" + "-" + "07" == "2025-07"
  {
    var yy := DropCentury("2025");
    assert yy == "2025"[2..];
    assert yy[0] == '2' && yy[1] == '5' && |yy| == 2;
    CharsEqual("Jul" + " '" + yy, "Jul '25");
    CharsEqual("2025" + "-" + "07", "2025-07");
  }

  /** Two strings of the same length with the same characters are equal. */
  lemma CharsEqual(a: string, b: string)
    requires |a| == |b| && forall i | 0 <= i < |a| :: a[i] == b[i]
    ensures a == b
  {
  }

  /**
   * A sort key determines its month: two dates with the same sort key have the
   * same label, so one timeline entry never mixes months.
   */
  lemma ParseMonthKeyInjective(a: string, b: string)
    requires ParseMonthKey(a).Some? && ParseMonthKey(b).Some?
    requires ParseMonthKey(a).value.sortKey == ParseMonthKey(b).value.sortKey
    ensures ParseMonthKey(a) == ParseMonthKey(b)
  {
    var pa, pb := Split(Trim(a), '-'), Split(Trim(b), '-');
    assert pa[1] in pa && pa[2] in pa && pb[1] in pb && pb[2] in pb;
    var na, nb := MonthNum(pa[1]).value, MonthNum(pb[1]).value;
    var ka, kb := pa[2] + "-" + na, pb[2] + "-" + nb;
    assert |pa[2]| == |pb[2]|;
    assert pa[2] == ka[..|pa[2]|] == kb[..|pb[2]|] == pb[2];
    assert na == ka[|ka| - 2..] == kb[|kb| - 2..] == nb;
    MonthNumInjective(pa[1], pb[1]);
  }

  // ---------------------------------------------------------------------------
  // the month lookup as written

  /** `MONTH_NUM[mon]` as written: an own month property, else whatever the prototype supplies. */
  function MonthNumAsWritten(mon: string): (num: Option<string>)
    ensures MonthNum(mon).Some? ==> num == MonthNum(mon)
  {
    if MonthNum(mon).Some? then MonthNum(mon) else InheritedProperty(mon)
  }

  /** parseMonthKey as written, with the lookup that also sees inherited properties. */
  function ParseMonthKeyAsWritten(dateStr: string): (k: Option<MonthKey>)
    ensures ParseMonthKey(dateStr).Some? ==> k == ParseMonthKey(dateStr)
  {
    var parts := Split(Trim(dateStr), '-');
    if |parts| < 3 then None
    else
      var mon := parts[1];
      var yr := parts[2];
      var num := MonthNumAsWritten(mon);
      if num.None? || yr == "" then None
      else Some(MonthKey(mon + " '" + DropCentury(yr), yr + "-" + num.value))
  }

  /**
   * The lookup as written lets any name of an inherited property through as a
   * month: the date is rejected by the intended lookup but accepted, with a
   * sort key that is not a year and a month number.
   */
  lemma {:induction false} ParseMonthKeyAsWrittenAcceptsInherited(day: string, name: string, yr: string)
    requires '-' !in day && '-' !in name && '-' !in yr && yr != ""
    requires InheritedProperty(name).Some?
    requires IsTrimmed(day + "-" + name + "-" + yr)
    ensures ParseMonthKey(day + "-" + name + "-" + yr) == None
    ensures ParseMonthKeyAsWritten(day + "-" + name + "-" + yr)
         == Some(MonthKey(name + " '" + DropCentury(yr), yr + "-" + InheritedProperty(name).value))
  {
    var d := day + "-" + name + "-" + yr;
    DatePieces(day, name, yr);
    NotAMonth(name);
    ParseMonthKeyOfNonMonth(d, day, name, yr);
    ParseMonthKeyAsWrittenOfPieces(d, day, name, yr);
  }

  /** A trimmed date written as three '-'-free pieces splits into them. */
  lemma DatePieces(day: string, mon: string, yr: string)
    requires '-' !in day && '-' !in mon && '-' !in yr
    requires IsTrimmed(day + "-" + mon + "-" + yr)
    ensures Split(Trim(day + "-" + mon + "-" + yr), '-') == [day, mon, yr]
  {
    var d := day + "-" + mon + "-" + yr;
    var parts := [day, mon, yr];
    assert parts[1..] == [mon, yr] && parts[1..][1..] == [yr];
    assert Join([yr], '-') == yr;
    assert Join([mon, yr], '-') == mon + ['-'] + yr;
    assert Join(parts, '-') == day + ['-'] + (mon + ['-'] + yr);
    assert d == day + ['-'] + (mon + ['-'] + yr);
    SplitJoin(parts, '-');
    TrimTrimmed(d);
  }

  /** A name longer than three characters is not a month abbreviation. */
  lemma NotAMonth(name: string)
    requires |name| > 3
    ensures name !in MONTHS
  {
    assert forall i | 0 <= i < |MONTHS| :: |MONTHS[i]| == 3;
  }

  /** A date whose second piece is no month has no key. */
  lemma ParseMonthKeyOfNonMonth(d: string, day: string, mon: string, yr: string)
    requires Split(Trim(d), '-') == [day, mon, yr]
    requires mon !in MONTHS
    ensures ParseMonthKey(d) == None
  {
  }

  /** As written, a date of three pieces whose second has a property value gets a key. */
  lemma ParseMonthKeyAsWrittenOfPieces(d: string, day: string, mon: string, yr: string)
    requires Split(Trim(d), '-') == [day, mon, yr]
    requires MonthNumAsWritten(mon).Some? && yr != ""
    ensures ParseMonthKeyAsWritten(d) == Some(MonthKey(mon + " '" + DropCentury(yr), yr + "-" + MonthNumAsWritten(mon).value))
  {
  }

  /**
   * The instance "1-constructor-2025": a timeline entry labelled
   * "constructor '25" whose sort key ends in the text of a function.
   */
  lemma ParseMonthKeyAsWrittenAcceptsConstructor(day: string, name: string, yr: string)
    requires day == "1" && name == "constructor" && yr == "2025"
    ensures ParseMonthKey(day + "-" + name + "-" + yr) == None
    ensures ParseMonthKeyAsWritten(day + "-" + name + "-" + yr)
         == Some(MonthKey("constructor '25", "2025-" + OBJECT_SOURCE))
  {
    ConstructorDate();
    ParseMonthKeyAsWrittenAcceptsInherited(day, name, yr);
    ConstructorKey();
  }

  /** The pieces of "1-constructor-2025" have no '-', the date no white space, and the name a prototype value. */
  lemma ConstructorDate()
    ensures '-' !in "1" && '-' !in "constructor" && '-' !in "2025"
    ensures IsTrimmed("1" + "-" + "constructor" + "-" + "2025")
    ensures InheritedProperty("constructor") == Some(OBJECT_SOURCE)
  {
    var d := "1" + "-" + "constructor" + "-" + "2025";
    assert d[0] == '1' && d[|d| - 1] == '5';
    assert forall i | 0 <= i < 11 :: "constructor"[i] != '-';
    assert forall i | 0 <= i < 4 :: "2025"[i] != '-';
  }

  /** The label and the start of the sort key of "1-constructor-2025", written out. */
  lemma ConstructorKey()
    ensures "constructor" + " '" + DropCentury("2025") == "constructor '25"
    ensures "2025" + "-" == "2025-"
  {
    var yy := DropCentury("2025");
    assert yy == "2025"[2..];
    assert yy[0] == '2' && yy[1] == '5' && |yy| == 2;
    CharsEqual("constructor" + " '" + yy, "constructor '25");
    CharsEqual("2025" + "-", "2025-");
  }

  // ---------------------------------------------------------------------------
  // the month map

  function SortKey(m: MonthlyOffer): string { m.sortKey }
  function KeySortKey(k: MonthKey): string { k.sortKey }
  function MonthCount(m: MonthlyOffer): nat { m.count }

  /** The parsed month of every offer whose date parses, in order. */
  function MonthKeys(offers: seq<OfferRecord>): (ks: seq<MonthKey>)
    ensures |ks| <= |offers|
  {
    if offers == [] then []
    else
      MonthKeys(offers[..|offers| - 1])
        + match ParseMonthKey(offers[|offers| - 1].offerDate) {
            case None => []
            case Some(k) => [k]
          }
  }

  /** One dated offer: create its month with a count of 0 when new, then count it. */
  function AddMonth(ms: seq<MonthlyOffer>, k: MonthKey): seq<MonthlyOffer> {
    match IndexOf(ms, SortKey, k.sortKey) {
      case None => ms + [MonthlyOffer(k.name, k.sortKey, 1)]
      case Some(i) => ms[i := ms[i].(count := ms[i].count + 1)]
    }
  }

  /** The month map after counting the months ks, in order. */
  function MonthIndex(ks: seq<MonthKey>): seq<MonthlyOffer> {
    if ks == [] then [] else AddMonth(MonthIndex(ks[..|ks| - 1]), ks[|ks| - 1])
  }

  /** The count of a month, 0 when it is not in the map. */
  function CountOf(ms: seq<MonthlyOffer>, sortKey: string): nat {
    match IndexOf(ms, SortKey, sortKey) {
      case None => 0
      case Some(i) => ms[i].count
    }
  }

  /** Counting a dated offer keeps one entry per sort key and every count positive. */
  lemma AddMonthValid(ms: seq<MonthlyOffer>, k: MonthKey)
    requires DistinctKeys(ms, SortKey)
    requires forall j | 0 <= j < |ms| :: ms[j].count >= 1
    ensures DistinctKeys(AddMonth(ms, k), SortKey)
    ensures forall j | 0 <= j < |AddMonth(ms, k)| :: AddMonth(ms, k)[j].count >= 1
  {
    var ms' := AddMonth(ms, k);
    match IndexOf(ms, SortKey, k.sortKey) {
      case None =>
        assert ms' == ms + [MonthlyOffer(k.name, k.sortKey, 1)];
        assert forall j | 0 <= j < |ms| :: ms'[j] == ms[j];
      case Some(i) =>
        assert forall j | 0 <= j < |ms| :: ms'[j].sortKey == ms[j].sortKey;
    }
  }

  /** Counting a dated offer adds one to its month and changes no other count. */
  lemma AddMonthCount(ms: seq<MonthlyOffer>, k: MonthKey, sortKey: string)
    ensures CountOf(AddMonth(ms, k), sortKey) == CountOf(ms, sortKey) + (if sortKey == k.sortKey then 1 else 0)
  {
    var ms' := AddMonth(ms, k);
    match IndexOf(ms, SortKey, k.sortKey) {
      case None =>
        var m := MonthlyOffer(k.name, k.sortKey, 1);
        assert ms' == ms + [m];
        IndexOfAppend(ms, m, SortKey, sortKey);
      case Some(i) =>
        assert forall j | 0 <= j < |ms| :: SortKey(ms'[j]) == SortKey(ms[j]);
        IndexOfSameKeys(ms, ms', SortKey, SortKey, sortKey);
    }
  }

  /** Counting a dated offer adds one to the sum of the counts. */
  lemma AddMonthSum(ms: seq<MonthlyOffer>, k: MonthKey)
    ensures SumBy(AddMonth(ms, k), MonthCount) == SumBy(ms, MonthCount) + 1
  {
    match IndexOf(ms, SortKey, k.sortKey) {
      case None =>
        var m := MonthlyOffer(k.name, k.sortKey, 1);
        SumByAppend(ms, [m], MonthCount);
        assert [m][..0] == [];
      case Some(i) =>
        SumByUpdate(ms, i, ms[i].(count := ms[i].count + 1), MonthCount);
    }
  }

  /** The month map holds one entry per sort key, each with a positive count. */
  lemma {:induction false} MonthIndexValid(ks: seq<MonthKey>)
    ensures DistinctKeys(MonthIndex(ks), SortKey)
    ensures forall j | 0 <= j < |MonthIndex(ks)| :: MonthIndex(ks)[j].count >= 1
  {
    if ks != [] {
      MonthIndexValid(ks[..|ks| - 1]);
      AddMonthValid(MonthIndex(ks[..|ks| - 1]), ks[|ks| - 1]);
    }
  }

  /** Each month of the map counts the dated offers of that month. */
  lemma {:induction false} MonthIndexCount(ks: seq<MonthKey>, sortKey: string)
    ensures CountOf(MonthIndex(ks), sortKey) == |FilterKey(ks, KeySortKey, sortKey)|
  {
    if ks != [] {
      MonthIndexCount(ks[..|ks| - 1], sortKey);
      AddMonthCount(MonthIndex(ks[..|ks| - 1]), ks[|ks| - 1], sortKey);
      FilterKeyLast(ks, KeySortKey, sortKey);
    }
  }

  /** Together the counts cover every dated offer once. */
  lemma {:induction false} MonthIndexSum(ks: seq<MonthKey>)
    ensures SumBy(MonthIndex(ks), MonthCount) == |ks|
  {
    if ks != [] {
      MonthIndexSum(ks[..|ks| - 1]);
      AddMonthSum(MonthIndex(ks[..|ks| - 1]), ks[|ks| - 1]);
    }
  }

  // ---------------------------------------------------------------------------
  // sort-key order (calendar order by SortKeyChronological)

  predicate Ascending(ms: seq<MonthlyOffer>) {
    forall i, j | 0 <= i < j < |ms| :: StrLess(ms[i].sortKey, ms[j].sortKey)
  }

  /** Inserts x before the first entry whose key comes after its own. */
  function InsertMonth(t: seq<MonthlyOffer>, x: MonthlyOffer): (r: seq<MonthlyOffer>)
    ensures |r| == |t| + 1
    ensures multiset(r) == multiset(t) + multiset{x}
  {
    if t == [] then [x]
    else if StrLess(x.sortKey, t[0].sortKey) then [x] + t
    else
      assert t == [t[0]] + t[1..];
      [t[0]] + InsertMonth(t[1..], x)
  }

  /** Inserting a month with a new key into an ascending list keeps it ascending. */
  lemma {:induction false} InsertMonthAscending(t: seq<MonthlyOffer>, x: MonthlyOffer)
    requires Ascending(t)
    requires forall y | y in t :: y.sortKey != x.sortKey
    ensures Ascending(InsertMonth(t, x))
  {
    if t == [] {
    } else if StrLess(x.sortKey, t[0].sortKey) {
      forall j | 0 <= j < |t| ensures StrLess(x.sortKey, t[j].sortKey) {
        if j > 0 { StrLessTransitive(x.sortKey, t[0].sortKey, t[j].sortKey); }
      }
      PrependAscending(x, t);
    } else {
      assert t[0] in t;
      StrLessTotal(x.sortKey, t[0].sortKey);
      assert forall j | 0 <= j < |t[1..]| :: t[1..][j] == t[j + 1];
      assert forall y | y in t[1..] :: y in t;
      InsertMonthAscending(t[1..], x);
      var lo := t[0].sortKey;
      InsertMonthAll(t[1..], x, (y: MonthlyOffer) => StrLess(lo, y.sortKey));
      PrependAscending(t[0], InsertMonth(t[1..], x));
    }
  }

  /** Inserting keeps a property that every entry and x have. */
  lemma {:induction false} InsertMonthAll(t: seq<MonthlyOffer>, x: MonthlyOffer, p: MonthlyOffer -> bool)
    requires forall i | 0 <= i < |t| :: p(t[i])
    requires p(x)
    ensures forall i | 0 <= i < |InsertMonth(t, x)| :: p(InsertMonth(t, x)[i])
  {
    if t != [] && !StrLess(x.sortKey, t[0].sortKey) {
      assert forall i | 0 <= i < |t[1..]| :: t[1..][i] == t[i + 1];
      InsertMonthAll(t[1..], x, p);
      PrependAll(t[0], InsertMonth(t[1..], x), p);
    } else if t != [] {
      PrependAll(x, t, p);
    }
  }

  lemma PrependAll(y: MonthlyOffer, rest: seq<MonthlyOffer>, p: MonthlyOffer -> bool)
    requires p(y) && forall i | 0 <= i < |rest| :: p(rest[i])
    ensures forall i | 0 <= i < |[y] + rest| :: p(([y] + rest)[i])
  {
    assert forall i | 0 < i < |rest| + 1 :: ([y] + rest)[i] == rest[i - 1];
  }

  /** An ascending list stays ascending behind a month whose key comes before all of its keys. */
  lemma PrependAscending(y: MonthlyOffer, rest: seq<MonthlyOffer>)
    requires Ascending(rest)
    requires forall i | 0 <= i < |rest| :: StrLess(y.sortKey, rest[i].sortKey)
    ensures Ascending([y] + rest)
  {
    var r := [y] + rest;
    forall i, j | 0 <= i < j < |r| ensures StrLess(r[i].sortKey, r[j].sortKey) {
      assert r[j] == rest[j - 1];
      if i > 0 { assert r[i] == rest[i - 1]; }
    }
  }

  /** `.sort((a, b) => a.sortKey.localeCompare(b.sortKey))`, by insertion. */
  function SortMonths(ms: seq<MonthlyOffer>): (r: seq<MonthlyOffer>)
    ensures |r| == |ms|
    ensures multiset(r) == multiset(ms)
  {
    if ms == [] then []
    else
      assert ms == ms[..|ms| - 1] + [ms[|ms| - 1]];
      InsertMonth(SortMonths(ms[..|ms| - 1]), ms[|ms| - 1])
  }

  /** Months with distinct keys come out in strictly increasing key order. */
  lemma {:induction false} SortMonthsAscending(ms: seq<MonthlyOffer>)
    requires DistinctKeys(ms, SortKey)
    ensures Ascending(SortMonths(ms))
  {
    if ms != [] {
      var init, last := ms[..|ms| - 1], ms[|ms| - 1];
      var sorted := SortMonths(init);
      SortMonthsAscending(init);
      forall y | y in sorted ensures y.sortKey != last.sortKey {
        assert y in multiset(init);
        var i :| 0 <= i < |init| && init[i] == y;
        assert ms[i] == y;
      }
      InsertMonthAscending(sorted, last);
    }
  }

  /** The month-by-month timeline of a list of offers. */
  function Timeline(offers: seq<OfferRecord>): seq<MonthlyOffer> {
    SortMonths(MonthIndex(MonthKeys(offers)))
  }

  /**
   * The timeline: strictly increasing sort keys, one entry per month, every
   * count positive, and the counts adding up to the number of offers whose
   * date parses.
   */
  lemma TimelineFacts(offers: seq<OfferRecord>)
    ensures var t := Timeline(offers);
      && Ascending(t)
      && (forall m | m in t :: m.count >= 1)
      && SumBy(t, MonthCount) == |MonthKeys(offers)| <= |offers|
  {
    var ks := MonthKeys(offers);
    var index := MonthIndex(ks);
    var t := Timeline(offers);
    MonthIndexValid(ks);
    MonthIndexSum(ks);
    SortMonthsAscending(index);
    forall m | m in t ensures m.count >= 1 {
      assert m in multiset(index);
      var p :| 0 <= p < |index| && index[p] == m;
    }
    SumByPermutation(t, index, MonthCount);
  }

  /** Each timeline entry counts the dated offers with its sort key. */
  lemma TimelineCount(offers: seq<OfferRecord>, k: nat)
    requires k < |Timeline(offers)|
    ensures Timeline(offers)[k].count
         == |FilterKey(MonthKeys(offers), KeySortKey, Timeline(offers)[k].sortKey)|
  {
    var ks := MonthKeys(offers);
    var index := MonthIndex(ks);
    var m := Timeline(offers)[k];
    assert m in multiset(index);
    var p :| 0 <= p < |index| && index[p] == m;
    MonthIndexValid(ks);
    MonthIndexCount(ks, m.sortKey);
    IndexOfDistinct(index, SortKey, p);
  }

  // ---------------------------------------------------------------------------
  // the whole result

  datatype CtcStats = CtcStats(
    count: nat,
    highest: int,
    lowest: int,
    average: int,
    median: int,
    offerTypeBreakdown: map<OfferType, nat>,
    monthlyTimeline: seq<MonthlyOffer>)

  /** What computeCtcStats returns for a list of offers. */
  function CtcStatsOf(offers: seq<OfferRecord>): CtcStats {
    var ctcs := SortBy(PlacementCtcs(offers), Id);
    var count := |ctcs|;
    CtcStats(
      count := count,
      highest := if count > 0 then ctcs[count - 1] else 0,
      lowest := if count > 0 then ctcs[0] else 0,
      average := if count > 0 then RoundDiv(Sum(ctcs), count) else 0,
      median := Median(ctcs),
      offerTypeBreakdown := BreakdownOf(offers),
      monthlyTimeline := Timeline(offers))
  }

  /** On a sorted non-empty sequence, the median and the rounded mean lie between the first and the last values. */
  lemma SortedFigures(sorted: seq<int>)
    requires SortedBy(sorted, Id) && |sorted| > 0
    ensures sorted[0] <= Median(sorted) <= sorted[|sorted| - 1]
    ensures sorted[0] <= RoundDiv(Sum(sorted), |sorted|) <= sorted[|sorted| - 1]
  {
    var n := |sorted|;
    forall x | x in sorted ensures sorted[0] <= x <= sorted[n - 1] {
      var i :| 0 <= i < n && sorted[i] == x;
      assert Id(sorted[0]) <= Id(sorted[i]) <= Id(sorted[n - 1]);
    }
    SumBetween(sorted, sorted[0], sorted[n - 1]);
    RoundDivBetween(Sum(sorted), n, sorted[0], sorted[n - 1]);
    if n % 2 == 0 {
      assert Id(sorted[0]) <= Id(sorted[n / 2 - 1]) <= Id(sorted[n / 2]) <= Id(sorted[n - 1]);
    } else {
      assert sorted[n / 2] in sorted;
    }
  }

  /**
   * The salary figures: the count of placement salaries; the lowest and the
   * highest are the least and the greatest of them; the median and the
   * average lie between the two; all are 0 when there is no salary.
   */
  lemma CtcFigures(offers: seq<OfferRecord>)
    ensures var s := CtcStatsOf(offers);
      var ctcs := PlacementCtcs(offers);
      && s.count == |ctcs|
      && (s.count == 0 ==> s.highest == 0 && s.lowest == 0 && s.average == 0 && s.median == 0)
      && (s.count > 0 ==>
            && s.lowest in ctcs && s.highest in ctcs
            && (forall c | c in ctcs :: s.lowest <= c <= s.highest)
            && s.lowest <= s.median <= s.highest
            && s.lowest <= s.average <= s.highest)
  {
    var ctcs := PlacementCtcs(offers);
    var sorted := SortBy(ctcs, Id);
    if |sorted| > 0 {
      SortedEnds(sorted, ctcs);
      SortedFigures(sorted);
    }
  }

  /** The first and last values of a sorted reordering are values of the original and bound all of them. */
  lemma SortedEnds(sorted: seq<int>, ctcs: seq<int>)
    requires SortedBy(sorted, Id) && |sorted| > 0
    requires multiset(sorted) == multiset(ctcs)
    ensures sorted[0] in ctcs && sorted[|sorted| - 1] in ctcs
    ensures forall c | c in ctcs :: sorted[0] <= c <= sorted[|sorted| - 1]
  {
    var n := |sorted|;
    assert sorted[0] in multiset(ctcs) && sorted[n - 1] in multiset(ctcs);
    forall c | c in ctcs ensures sorted[0] <= c <= sorted[n - 1] {
      assert c in multiset(sorted);
      var i :| 0 <= i < n && sorted[i] == c;
      assert Id(sorted[0]) <= Id(sorted[i]) <= Id(sorted[n - 1]);
    }
  }

  // ---------------------------------------------------------------------------
  // the computation

  /**
   * computeCtcStats. The breakdown and the month map are built by loops over
   * the offers, as the source does.
   */
  method ComputeCtcStats(offers: seq<OfferRecord>) returns (stats: CtcStats)
    ensures stats == CtcStatsOf(offers)
  {
    var ctcs := SortBy(PlacementCtcs(offers), Id);
    var count := |ctcs|;
    var highest := if count > 0 then ctcs[count - 1] else 0;
    var lowest := if count > 0 then ctcs[0] else 0;
    var average := if count > 0 then RoundDiv(Sum(ctcs), count) else 0;
    var median := Median(ctcs);

    var breakdown := CountTypes(offers);
    var monthMap := CountMonths(offers);
    var monthlyTimeline := SortMonths(monthMap);

    stats := CtcStats(count, highest, lowest, average, median, breakdown, monthlyTimeline);
  }

  /** The offer-type loop of computeCtcStats: every type starts at 0, each offer adds one to its type. */
  method CountTypes(offers: seq<OfferRecord>) returns (breakdown: map<OfferType, nat>)
    ensures breakdown == BreakdownOf(offers)
  {
    breakdown := map[Internship := 0, Regular := 0, Dream := 0, Marquee := 0, SuperDream := 0];
    for i := 0 to |offers|
      invariant breakdown == BreakdownOf(offers[..i])
    {
      var o := offers[i];
      BreakdownStep(offers, i);
      breakdown := breakdown[o.offerType := breakdown[o.offerType] + 1];
    }
    assert offers[..|offers|] == offers;
  }

  lemma BreakdownStep(offers: seq<OfferRecord>, i: nat)
    requires i < |offers|
    ensures var b := BreakdownOf(offers[..i]);
      BreakdownOf(offers[..i + 1]) == b[offers[i].offerType := b[offers[i].offerType] + 1]
  {
    var o := offers[i];
    assert offers[..i + 1][..i] == offers[..i];
    forall t ensures |FilterKey(offers[..i + 1], TypeOf, t)|
                  == |FilterKey(offers[..i], TypeOf, t)| + (if t == o.offerType then 1 else 0) {
      FilterKeyLast(offers[..i + 1], TypeOf, t);
    }
  }

  /** The month loop of computeCtcStats: offers whose date does not parse are skipped. */
  method CountMonths(offers: seq<OfferRecord>) returns (monthMap: seq<MonthlyOffer>)
    ensures monthMap == MonthIndex(MonthKeys(offers))
  {
    monthMap := [];
    for i := 0 to |offers|
      invariant monthMap == MonthIndex(MonthKeys(offers[..i]))
    {
      var parsed := ParseMonthKey(offers[i].offerDate);
      MonthKeysStep(offers, i);
      ghost var e := MonthKeys(offers[..i]);
      ghost var e' := MonthKeys(offers[..i + 1]);
      if parsed.None? {
        assert e' == e;
        continue;
      }
      assert e' == e + [parsed.value];
      MonthIndexStep(e, parsed.value);
      monthMap := CountMonth(monthMap, parsed.value);
      assert monthMap == MonthIndex(e');
    }
    assert offers[..|offers|] == offers;
  }

  /** One dated offer: `has`, then `set` with a count of 0 when missing, then `count++`. */
  method CountMonth(monthMap: seq<MonthlyOffer>, k: MonthKey) returns (m: seq<MonthlyOffer>)
    ensures m == AddMonth(monthMap, k)
  {
    m := monthMap;
    if IndexOf(m, SortKey, k.sortKey).None? {
      m := m + [MonthlyOffer(k.name, k.sortKey, 0)];
      IndexOfAppend(monthMap, MonthlyOffer(k.name, k.sortKey, 0), SortKey, k.sortKey);
    }
    var j := IndexOf(m, SortKey, k.sortKey).value;
    m := m[j := m[j].(count := m[j].count + 1)];
  }

  lemma MonthKeysStep(offers: seq<OfferRecord>, i: nat)
    requires i < |offers|
    ensures MonthKeys(offers[..i + 1])
         == MonthKeys(offers[..i]) + match ParseMonthKey(offers[i].offerDate) {
              case None => []
              case Some(k) => [k]
            }
  {
    assert offers[..i + 1][..i] == offers[..i];
  }

  lemma MonthIndexStep(ks: seq<MonthKey>, k: MonthKey)
    ensures MonthIndex(ks + [k]) == AddMonth(MonthIndex(ks), k)
  {
    assert (ks + [k])[..|ks|] == ks;
  }
}
