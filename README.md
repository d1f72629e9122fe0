# Placement statistics generator — a Dafny model of its core

The placement statistics generator reads two Google Sheets exported as CSV:
- a master sheet with one row per student;
- an offer sheet with one row per offer.

It computes cohort, branch, company, salary (CTC) and timeline statistics and
renders them as a PDF report. A Next.js dashboard in front of it triggers
reports and offers two ways to produce one:
- a quick route that builds the PDF on the spot;
- a generate route that starts a GitHub workflow.

The dashboard also polls the workflow, shows its status, and lists past reports.

This project models that core in Dafny and proves properties of the model:

- **Parsers** (`parser.dfy`, module `Parser`). The row loops of `parseOfferDetails`
  and `parseMasterSheet`: which rows are skipped, how each cell is cleaned,
  the CTC reading, the offer-type fallback, and the three errors of the master
  sheet. Both loops are methods proved equal to a filter-then-map specification.
- **Aggregation engine** (`processor.dfy`, `companies.dfy`, `ctc_stats.dfy`,
  `rounding.dfy`).
  - `computeStats`: per-branch statistics, percentages in tenths of a percent,
    and the company map built in place. The company index is a method proved
    equal to a fold, and the fold's counting properties are proved.
  - `computeCtcStats`: salary figures, the per-type breakdown, `parseMonthKey`,
    and the month map sorted by its sort keys, which follow the calendar for years of equal length.
- **API routes** (`requests.dfy`, `generate_quick_route.dfy`,
  `generate_route.dfy`). The ordered checks both POST handlers run; the quick
  route's flag-to-options mapping and responses; the generate route's responses.
- **Dashboard state** (`poller.dfy`, `status_badge.dfy`, `settings_panel.dfy`,
  `history_list.dfy`, `flag_toggles.dfy`).
  - The workflow poller is a class whose methods are proved against a pure
    transition function, with the poll and error limits as invariants.
  - Each component's state is a class or a pure render function.
- **Shared definitions**: `text.dfy` (ECMAScript `trim`, `split`, decimal
  rendering, code-point order), `seqs.dfy` (filter, map, counting by key, stable
  sort), `types.dfy`, `config.dfy`, `constants.dfy` (the report flags),
  `sheet_id.dfy` (the spreadsheet-id pattern), `js_objects.dfy` (what a plain
  object literal inherits from `Object.prototype`), `wrappers.dfy`.

Representation choices:
- Percentages are integers in tenths (333 stands for 33.3).
- `Math.round(a / b)` with `b > 0` is taken as `(2a + b) / (2b)`, i.e. round half up. This is exact for the CTC average's single division; the percentages' `(p / o) * 1000` in doubles can differ (see `Processor.PercentTenths` under "## Left out").
- Insertion-ordered `Map`s and plain objects are sequences with distinct keys.
- JavaScript `string` is `seq<char>`. A Dafny `char` is a Unicode code point, while a JavaScript string is a sequence of UTF-16 code units; the two agree for text inside the Basic Multilingual Plane (up to U+FFFF).

The model follows the code in these places:
- `placementPercent` and the gender percentages count every record with status
  `Placed`, whether or not it opted for placement, so they can exceed 100.0.
  The model proves `≤ 1000` tenths only when every placed record opted
  (`Processor.PlacedAreOpted`).
- The company emptiness test is made on the raw, untrimmed entry.

## Model

| member | source | states |
|---|---|---|
| Rounding.RoundDiv | frontend/src/processor.ts:35 | `Math.round(n / d)`: the nearest integer to n/d, a half rounded up; non-negative for non-negative n |
| Rounding.RoundDivBetween | frontend/src/processor.ts:130 | a rounded mean of values within [lo, hi] lies within [lo, hi] |
| Text.Trim | frontend/src/processor.ts:5-6 | the result of `trim()` has no ECMAScript white space at either end |
| Text.TrimInfix | frontend/src/processor.ts:5-6 | `trim()` removes exactly the leading and trailing white space and keeps the middle of the string unchanged |
| Text.TrimIdempotent | frontend/src/processor.ts:5-6 | trimming twice is trimming once |
| Text.JoinSplit | src/parser.ts:80-81 | joining the pieces of `split(sep)` gives the string back |
| Text.SplitJoin | src/parser.ts:80-81 | splitting a join of separator-free pieces gives the pieces back |
| Text.ShowNatValue | frontend/components/StatusBadge.tsx:24 | the decimal text a template literal renders for a whole number reads back as that number |
| Seqs.SortByStable | frontend/src/processor.ts:90 | `Array.prototype.sort` with a numeric comparator is stable: elements with equal keys keep their input order |
| Seqs.CollectFilterMap | src/parser.ts:21-38 | a loop pushing one result per kept element is a filter followed by a map |
| Processor.PercentTenths | frontend/src/processor.ts:34-36 | 0 when nobody opted; otherwise placed/opted in tenths of a percent, rounded half up |
| Processor.PercentAtMostHundred | frontend/src/processor.ts:59-61 | a percentage is at most 100.0 exactly when 2000·placed < 2001·opted, so whenever placed ≤ opted |
| Processor.PercentOneOfThree | frontend/src/processor.ts:59-61 | 1 placed of 3 opted shows 33.3 |
| Processor.BranchLabelShape | frontend/src/processor.ts:4-9 | the label is the trimmed class exactly when the trimmed section is empty or "-", otherwise class, space, section |
| Processor.ChoiceCountsBound | frontend/src/processor.ts:49-51 | opted, higher-studies and exempt counts together never exceed the records |
| Processor.StatusCountsBound | frontend/src/processor.ts:52-56 | the five status counts together never exceed the records |
| Processor.GenderCountsBound | frontend/src/processor.ts:16-19 | male and female counts together never exceed the records counted |
| Processor.ComputeBranchStats | frontend/src/processor.ts:11-45 | the branch's size is the records matchFn selects; exclusive counts and gender splits stay within their totals; each percentage is placed over opted; within 100.0 when every placed record opted |
| Processor.PercentWithinHundred | frontend/src/processor.ts:34-36 | placed ≤ opted gives at most 100.0 |
| Processor.PercentBounds | frontend/src/processor.ts:34-43 | when every placed record opted, the overall, male and female percentages are at most 100.0 |
| Processor.BranchesBy | frontend/src/processor.ts:64-71 | one row per configured label, in order, counting the records whose label it is |
| Processor.BranchesPartition | frontend/src/processor.ts:64-71 | rows with distinct labels never count a student twice: their sizes add up to at most the cohort |
| Processor.BranchesSum | frontend/src/processor.ts:64-71 | the rows' sizes add up to the records counted under the labels |
| Processor.StatsCounts | frontend/src/processor.ts:47-61 | cohort counts within the cohort; the overall percentage is placed over opted and within 100.0 when every placed record opted |
| Processor.StatsBranches | frontend/src/processor.ts:63-66 | the section table follows BRANCH_ORDER, each row counts the records with its label, and no student is counted twice |
| Processor.StatsMergedBranches | frontend/src/processor.ts:68-71 | the merged table follows MERGED_BRANCH_ORDER, each row counts the records whose trimmed class is its branch, and no student is counted twice |
| Processor.SortedCompaniesFacts | frontend/src/processor.ts:75-90 | the company list is a permutation of the map, ordered by decreasing offers, one entry per name, each counting its name's entries; the totals add up to all counted entries |
| Processor.StatsCompanies | frontend/src/processor.ts:90-97 | `companies` is the sorted list, `totalCompanies` its length, and its offers never exceed `totalOffers` |
| Processor.CompaniesStable | frontend/src/processor.ts:90 | companies with equal offer counts stay in first-seen order |
| Processor.CompanyListed | frontend/src/processor.ts:76-88 | a company is listed exactly when some student has a non-empty entry that normalises to its name |
| Processor.CompanyBranchCount | frontend/src/processor.ts:86 | a company's count for a branch is the number of its entries from students of that branch |
| Processor.StatsTopRecruiters | frontend/src/processor.ts:90-91 | the top recruiters are the first ten companies (all when fewer), none with fewer offers than one left out |
| Processor.ComputeStats | frontend/src/processor.ts:47-100 | the method, whose company map is updated entry by entry, returns exactly the specified statistics |
| Processor.CountRecord | frontend/src/processor.ts:78-87 | the inner loop counts one student's non-empty entries into the map |
| Processor.CountEntry | frontend/src/processor.ts:80-86 | one entry: the company is created with no offers when missing, then its total and branch are counted |
| Companies.NormalizeCompany | frontend/src/processor.ts:79-80 | the name counted is the trimmed entry, with "Citibank PPO" merged into "Citibank" |
| Companies.RecordOffers | frontend/src/processor.ts:78-80 | a student contributes one entry per non-empty company cell, labelled with the merged branch |
| Companies.Offers | frontend/src/processor.ts:76-80 | the counted entries never exceed `totalOffers` and are trimmed names other than "Citibank PPO" |
| Companies.BumpBranchCount | frontend/src/processor.ts:86 | `branchWise[label] = (branchWise[label] ?? 0) + 1` adds one to that label and changes no other; this is the corrected update of the Finding on lines 82-86, so a label such as "constructor" is counted like any other |
| Companies.BumpBranchAsWrittenAgrees | frontend/src/processor.ts:82-86 | for a label the object owns, or one `Object.prototype` does not supply, the update as written is BumpBranch |
| Companies.BumpBranchAsWrittenLosesOffer | frontend/src/processor.ts:82-86 | as written, a label `Object.prototype` supplies gets a string, not a count, and the numeric counts stop adding up to the total |
| Companies.BumpBranchAsWrittenConstructor | frontend/src/processor.ts:82-86 | as written, class "constructor" stores the Object function's text plus "1", then "11"; class "__proto__" stores nothing; the model counts one under each |
| Companies.BumpValid | frontend/src/processor.ts:85-86 | counting an entry keeps a company's branch counts distinct, positive and summing to its total |
| Companies.AddOfferValid | frontend/src/processor.ts:81-86 | counting an entry keeps names distinct and every company valid |
| Companies.AddOfferTotal | frontend/src/processor.ts:81-85 | counting an entry adds one to the total of its company and changes no other total |
| Companies.AddOfferBranch | frontend/src/processor.ts:81-86 | counting an entry adds one to its company's count in its branch and changes no other branch count |
| Companies.AddOfferSum | frontend/src/processor.ts:85 | counting an entry adds one to the sum of totals |
| Companies.TallyValid | frontend/src/processor.ts:75-88 | the map built from any entries has distinct names and valid entries |
| Companies.TallyCounts | frontend/src/processor.ts:75-88 | each company's total, and its branch count, is the number of entries carrying it |
| Companies.TallyTotal | frontend/src/processor.ts:75-88 | a company's total is the number of counted entries naming it |
| Companies.TallyBranch | frontend/src/processor.ts:75-88 | a company's count in a branch is the number of counted entries naming both |
| Companies.TallySum | frontend/src/processor.ts:75-88 | the totals add up to the number of entries counted |
| Companies.TallyListed | frontend/src/processor.ts:81-82 | a name is in the map exactly when some entry carries it |
| Companies.TallyEntry | frontend/src/processor.ts:75-88 | every entry of the map is valid and counts the entries with its name and branch |
| Companies.RecordOffersMember | frontend/src/processor.ts:78-80 | an entry comes from a student exactly when a non-empty cell of theirs normalises to it |
| Companies.OffersMember | frontend/src/processor.ts:76-80 | an entry is counted exactly when some student's non-empty cell normalises to it |
| CtcStats.PlacementCtcs | frontend/src/processor.ts:124-125 | the salaries counted are positive, at most one per offer |
| CtcStats.PlacementCtcsMember | frontend/src/processor.ts:124-125 | a salary is counted exactly when a non-internship offer carries it and it is positive |
| CtcStats.SortedFigures | frontend/src/processor.ts:128-135 | on sorted salaries the median and the rounded mean lie between the lowest and the highest |
| CtcStats.CtcFigures | frontend/src/processor.ts:124-135 | count is the number of salaries; lowest and highest are the least and greatest; median and average lie between; all 0 without salaries |
| CtcStats.TypeCountsCover | frontend/src/processor.ts:137-142 | every offer type is a key and counts the offers of that type |
| CtcStats.BreakdownOf | frontend/src/processor.ts:137-142 | every type present, counting its offers |
| CtcStats.BreakdownTotal | frontend/src/processor.ts:137-142 | the five counts add up to the number of offers |
| CtcStats.MonthNum | frontend/src/processor.ts:103-106 | exactly the twelve abbreviations have a number, and it is two digits |
| CtcStats.MonthNumOfPosition | frontend/src/processor.ts:103-106 | the month at calendar position i (from 0) has the number i + 1, two digits zero-padded ("Jan" is "01", "Dec" is "12") |
| CtcStats.MonthNumCalendar | frontend/src/processor.ts:103-106 | a later month has a greater number in code-point order |
| CtcStats.SortKeyChronological | frontend/src/processor.ts:118 | for years written with the same number of digits, an earlier year, or the same year and an earlier month, gives a smaller sort key |
| CtcStats.MonthNumInjective | frontend/src/processor.ts:103-106 | no two months share a number |
| CtcStats.DropCentury | frontend/src/processor.ts:117 | `yr.slice(2)`: the year without its first two characters, empty when shorter |
| CtcStats.ParseMonthKey | frontend/src/processor.ts:108-120 | a key exactly when the trimmed date has at least three '-' pieces, a month abbreviation second and a non-empty year third; label "Mon 'yy", sort key "year-MM" |
| CtcStats.ParseMonthKeyExample | frontend/src/processor.ts:108-120 | "30-Jul-2025" gives "Jul '25" and "2025-07" |
| CtcStats.ParseMonthKeyInjective | frontend/src/processor.ts:116-119 | two dates with the same sort key have the same label |
| JsObjects.InheritedProperty | frontend/src/processor.ts:114 | the names a plain object inherits give a non-empty value |
| CtcStats.MonthNumAsWritten | frontend/src/processor.ts:114 | `MONTH_NUM[mon]` as written agrees with the intended lookup on the twelve months |
| CtcStats.ParseMonthKeyAsWritten | frontend/src/processor.ts:108-120 | the parser as written agrees with the corrected one wherever the corrected one accepts |
| CtcStats.ParseMonthKeyAsWrittenAcceptsInherited | frontend/src/processor.ts:114-115 | a date whose month piece is an inherited property name is refused by the corrected parser and accepted as written |
| CtcStats.ParseMonthKeyAsWrittenAcceptsConstructor | frontend/src/processor.ts:114-115 | "1-constructor-2025" becomes a timeline month whose sort key holds the text of a function |
| CtcStats.AddMonthValid | frontend/src/processor.ts:149-152 | counting a dated offer keeps the month keys distinct and every count positive |
| CtcStats.AddMonthCount | frontend/src/processor.ts:149-152 | counting a dated offer adds one to its month and changes no other month |
| CtcStats.AddMonthSum | frontend/src/processor.ts:149-152 | counting a dated offer adds one to the sum of the counts |
| CtcStats.MonthIndexValid | frontend/src/processor.ts:145-153 | the month map has one entry per sort key, each with a positive count |
| CtcStats.MonthIndexCount | frontend/src/processor.ts:145-153 | each month's count is the number of dated offers in that month |
| CtcStats.MonthIndexSum | frontend/src/processor.ts:145-153 | the counts add up to the number of dated offers |
| CtcStats.InsertMonth | frontend/src/processor.ts:154-155 | inserting adds exactly the one entry |
| CtcStats.InsertMonthAscending | frontend/src/processor.ts:154-155 | inserting a new key into an ascending list keeps it ascending |
| CtcStats.SortMonths | frontend/src/processor.ts:154-155 | the sort is a permutation of the months |
| CtcStats.SortMonthsAscending | frontend/src/processor.ts:154-155 | months with distinct keys come out in strictly increasing key order |
| CtcStats.TimelineFacts | frontend/src/processor.ts:144-155 | the timeline's sort keys strictly increase (calendar order by SortKeyChronological), every count positive, the counts adding up to the dated offers |
| CtcStats.TimelineCount | frontend/src/processor.ts:145-153 | each timeline entry counts the dated offers with its sort key |
| CtcStats.ComputeCtcStats | frontend/src/processor.ts:122-158 | the method returns exactly the specified salary figures, breakdown and timeline |
| CtcStats.CountTypes | frontend/src/processor.ts:137-142 | the breakdown loop gives each type's count |
| CtcStats.BreakdownStep | frontend/src/processor.ts:140-142 | one more offer adds one to its type's count |
| CtcStats.CountMonths | frontend/src/processor.ts:145-153 | the month loop, skipping undated offers, builds the month map |
| CtcStats.CountMonth | frontend/src/processor.ts:149-152 | one dated offer: its month created with count 0 when missing, then counted |
| Parser.Cell | src/parser.ts:25-30 | a cell is trimmed; a missing cell reads as "" |
| Parser.ParseCtcShowNat | src/parser.ts:6-9 | an amount written in digits reads back as itself |
| Parser.ParseCtcIgnoresNonDigit | src/parser.ts:6-9 | commas and any other non-digit characters do not change the amount |
| Parser.ParseCtcNoDigits | src/parser.ts:8 | a cell with no digit reads as 0 |
| Parser.OfferTypeOf | src/parser.ts:35 | a cell spelling one of the five types gives that type, anything else Regular |
| Parser.OfferTypeRoundTrip | src/parser.ts:4 | every type reads back from its spelling |
| Parser.OfferOfRow | src/parser.ts:25-37 | a record's text fields are trimmed, its salary non-negative, its date empty when the row has no sixth cell |
| Parser.OfferDetailsFilterMap | src/parser.ts:21-38 | the records are the kept data rows, filtered then mapped, in order |
| Parser.OfferDetailsMember | src/parser.ts:21-38 | a record is produced exactly when some kept data row gives it |
| Parser.OfferDetailsFields | src/parser.ts:32-33 | every record has a company and a roll number or a name |
| Parser.OfferDetailsLength | src/parser.ts:21-38 | at most one record per data row; none without data rows |
| Parser.ParseOfferDetails | src/parser.ts:11-41 | the row loop returns exactly the specified records and never fails |
| Parser.SplitCompanies | src/parser.ts:80-82 | each company listed is non-empty, trimmed and comma-free |
| Parser.SplitCompaniesJoin | src/parser.ts:80-82 | a comma-joined list of such names reads back as the list; a blank cell is the empty list |
| Parser.StudentOfRow | src/parser.ts:68-94 | fields trimmed; status and companies empty when the row has no eighth cell |
| Parser.MasterSheet | src/parser.ts:43-102 | the first reader error is reported; no data row is refused; a success has at least one record |
| Parser.MasterSheetFilterMap | src/parser.ts:64-95 | on success the records are the kept data rows, filtered then mapped, in order |
| Parser.MasterSheetOutcome | src/parser.ts:49-99 | it fails exactly on a reader error, no data row, or no kept row |
| Parser.MasterSheetNamed | src/parser.ts:63-92 | every record returned has a reg-no or a name |
| Parser.ParseMasterSheet | src/parser.ts:43-102 | the method returns exactly the specified outcome |
| SheetIds.IdRun | frontend/components/SettingsPanel.tsx:10 | the run of id characters at the front is all id characters and stops at a non-id character |
| SheetIds.IdRunLongest | frontend/components/SettingsPanel.tsx:10 | no run of id characters at the front is longer |
| Requests.Property | frontend/app/api/generate-quick/route.ts:44 | a property is present exactly when the body is an object with that key |
| Requests.Strings | frontend/app/api/generate-quick/route.ts:46 | the strings of a string array, one per item, in order |
| Requests.FirstUnknown | frontend/app/api/generate-quick/route.ts:50-54 | None exactly when every flag is known, otherwise the first unknown flag in order |
| Requests.SheetIdOf | frontend/app/api/generate-quick/route.ts:56-64 | a spreadsheet id handed on matches the id pattern |
| Requests.Validate | frontend/app/api/generate-quick/route.ts:37-60 | refusals are 400; a null body fails unhandled; a request goes ahead exactly when flags are strings, all known, and the id is absent, null or well formed |
| Requests.ValidateOrder | frontend/app/api/generate-quick/route.ts:38-54 | invalid JSON is refused first, then a bad flags value, then the first unknown flag |
| Requests.ValidateMonotone | frontend/app/api/generate-quick/route.ts:50-54 | knowing more flags never changes an accepted request's outcome |
| Requests.Refusal | frontend/app/api/generate-quick/route.ts:41-58 | a refusal answers with its status and message; an unhandled failure with 500 |
| GenerateQuickRoute.FlagsToReportOptionsEmpty | frontend/app/api/generate-quick/route.ts:25-34 | no flags give the default options |
| GenerateQuickRoute.FlagsToReportOptionsSet | frontend/app/api/generate-quick/route.ts:25-34 | only which flags are present matters |
| GenerateQuickRoute.OptionsFlags | frontend/app/api/generate-quick/route.ts:14-21 | the flags chosen for some options are all valid |
| GenerateQuickRoute.FlagsToReportOptionsRoundTrip | frontend/app/api/generate-quick/route.ts:25-34 | every combination of options is selected by some valid flags |
| GenerateQuickRoute.Post | frontend/app/api/generate-quick/route.ts:36-96 | the options the flags select are returned exactly when the checks pass; the response is QuickResponse's |
| GenerateQuickRoute.QuickResponse | frontend/app/api/generate-quick/route.ts:36-96 | 200 with the PDF exactly when the checks pass and the PDF is made; 400 with the refusal's message exactly on refusal; 500 with no body on an unhandled failure, or with the thrown message when the work throws |
| GenerateQuickRoute.UnknownFlagResponse | frontend/app/api/generate-quick/route.ts:50-54 | a request with an unknown flag gets 400 with a message naming the first unknown flag |
| GenerateQuickRoute.NoChartsRefused | frontend/app/api/generate-quick/route.ts:50-54 | `--no-charts` is refused as an unknown flag |
| GenerateRoute.GenerateResponse | frontend/app/api/generate/route.ts:7-52 | 201 with the run id exactly when the checks pass and the workflow starts; 502 with the thrown message when starting throws; 400 with the refusal's message on refusal; 500 with no body exactly for a null body |
| GenerateRoute.QuickFlagsKnown | frontend/lib/constants.ts:61 | every flag the quick route knows is a key of FLAG_MAP |
| GenerateRoute.QuickAcceptedGenerateAccepted | frontend/app/api/generate/route.ts:24-31 | a request the quick route accepts is accepted here with the same flags and spreadsheet |
| GenerateRoute.NoChartsAccepted | frontend/app/api/generate/route.ts:24-31 | `--no-charts` is accepted here |
| Constants.FlagMapKeys | frontend/lib/constants.ts:61 | FLAG_MAP has exactly the seven defined flags |
| Constants.FlagDefinitionsShape | frontend/lib/constants.ts:9-59 | seven definitions, the first four additive, the rest advanced, none on by default |
| Constants.FlagDefinitionsDistinct | frontend/lib/constants.ts:9-59 | no flag is defined twice |
| FlagToggles.ReportFlagsAre | frontend/components/FlagToggles.tsx:20 | the toggles are the four additive flags in definition order, all off by default |
| FlagToggles.Entries | frontend/components/FlagToggles.tsx:22-24 | one entry per definition, its flag and its default |
| FlagToggles.InitialMapAllOff | frontend/components/FlagToggles.tsx:22-24 | the toggles start as the four additive flags, all off, handing on nothing |
| FlagToggles.InitialMapDistinct | frontend/components/FlagToggles.tsx:22-24 | definitions with distinct flags give an object with no key twice |
| FlagToggles.DefinitionFlagsDistinct | frontend/lib/constants.ts:9-59 | the defined flags are distinct |
| FlagToggles.Toggled | frontend/components/FlagToggles.tsx:28 | the toggled flag flips, every other flag keeps its value; a new key is added at the end |
| FlagToggles.NotKeyOff | frontend/components/FlagToggles.tsx:28 | a flag that is no key reads as off and is not handed on |
| FlagToggles.ToggledDistinct | frontend/components/FlagToggles.tsx:28 | toggling keeps keys distinct |
| FlagToggles.ToggledTwice | frontend/components/FlagToggles.tsx:26-32 | toggling a flag twice gives the object back |
| FlagToggles.EnabledExactly | frontend/components/FlagToggles.tsx:29 | a flag is handed on exactly when it is on |
| FlagToggles.Toggles.constructor | frontend/components/FlagToggles.tsx:22-24 | the state starts at the initial object |
| FlagToggles.Toggles.Toggle | frontend/components/FlagToggles.tsx:26-32 | the state becomes the toggled object and the flags handed on are exactly those now on |
| HistoryList.TotalPages | frontend/components/HistoryList.tsx:36 | the fewest pages of ten that hold the reports |
| HistoryList.Visible | frontend/components/HistoryList.tsx:37-38 | at most ten reports: the page's slice, empty past the end |
| HistoryList.PagesPrefix | frontend/components/HistoryList.tsx:37-38 | the first k pages show the reports in order up to the end of page k |
| HistoryList.PagesCoverAll | frontend/components/HistoryList.tsx:36-38 | all pages in order show every report exactly once |
| HistoryList.Render | frontend/components/HistoryList.tsx:16-63 | the empty state exactly when there are no reports; the page's slice otherwise; controls exactly beyond one page |
| HistoryList.RangeCountsVisible | frontend/components/HistoryList.tsx:58 | the range text counts exactly the reports shown |
| HistoryList.Pager.constructor | frontend/components/HistoryList.tsx:14 | the list starts on the first page |
| HistoryList.Pager.Prev | frontend/components/HistoryList.tsx:62 | one page back, not below the first; nothing changes exactly when Prev is disabled |
| HistoryList.Pager.Next | frontend/components/HistoryList.tsx:63 | one page on, not past the last; nothing changes exactly when Next is disabled |
| Poller.InitialInv | frontend/hooks/useWorkflowPoller.ts:25-31 | the initial state meets the invariant |
| Poller.StartedInv | frontend/hooks/useWorkflowPoller.ts:42-49 | starting resets the counters, shows queued and meets the invariant |
| Poller.StoppedInv | frontend/hooks/useWorkflowPoller.ts:35-40 | stopping keeps the invariant |
| Poller.TickInv | frontend/hooks/useWorkflowPoller.ts:51-94 | every tick keeps the invariant |
| Poller.RunInv | frontend/hooks/useWorkflowPoller.ts:51-94 | any sequence of ticks keeps the invariant |
| Poller.AtMostMaxPolls | frontend/hooks/useWorkflowPoller.ts:54-60 | at most MAX_POLLS status requests per run, however many ticks |
| Poller.RunCounts | frontend/hooks/useWorkflowPoller.ts:54 | while the interval stays set, every tick counts one poll |
| Poller.PollingEnds | frontend/hooks/useWorkflowPoller.ts:54-60 | after more than MAX_POLLS ticks the interval is cleared |
| Poller.StoppedRun | frontend/hooks/useWorkflowPoller.ts:35-40 | a cleared interval does not tick |
| Poller.StopIdempotent | frontend/hooks/useWorkflowPoller.ts:35-40 | stopping twice is stopping once |
| Poller.SuccessResetsErrors | frontend/hooks/useWorkflowPoller.ts:71 | a successful status request resets the error count |
| Poller.CompletedOutcome | frontend/hooks/useWorkflowPoller.ts:77-86 | a completed run stops; completed and the callback exactly on success, failed otherwise |
| Poller.UnknownStatusUnchanged | frontend/hooks/useWorkflowPoller.ts:73-86 | any other status leaves the shown status and the interval as they are |
| Poller.FailureCount | frontend/hooks/useWorkflowPoller.ts:87-92 | a failed request counts one error; the fifth in a row stops with error, earlier ones change nothing shown |
| Poller.TimeoutWithoutRequest | frontend/hooks/useWorkflowPoller.ts:56-60 | passing the poll limit stops with timeout and makes no request |
| Poller.FiveFailuresStop | frontend/hooks/useWorkflowPoller.ts:87-92 | five failures in a row from a fresh start end in error after five requests |
| Poller.WorkflowPoller.constructor | frontend/hooks/useWorkflowPoller.ts:25-31 | the hook starts idle, with no interval and zero counters |
| Poller.WorkflowPoller.StopPolling | frontend/hooks/useWorkflowPoller.ts:35-40 | clears the interval and nothing else |
| Poller.WorkflowPoller.StartPolling | frontend/hooks/useWorkflowPoller.ts:42-49 | the state becomes the started state |
| Poller.WorkflowPoller.OnTick | frontend/hooks/useWorkflowPoller.ts:51-94 | the callback's new state and notification are those of the tick transition |
| SettingsPanel.MatchAt | frontend/components/SettingsPanel.tsx:9-10 | a match at a position is the URL prefix then at least ten id characters; the captured id is an id |
| SettingsPanel.UrlMatch | frontend/components/SettingsPanel.tsx:17 | the leftmost match wins; no match exactly when no position matches |
| SettingsPanel.UrlMatchLeftmost | frontend/components/SettingsPanel.tsx:17 | the match returned is the one at some position with no match before it |
| SettingsPanel.ExtractSheetId | frontend/components/SettingsPanel.tsx:12-19 | the trimmed input when it is an id, else the id of the leftmost URL; whatever it returns is an id |
| SettingsPanel.PrefixNotId | frontend/components/SettingsPanel.tsx:14-17 | text starting with the URL prefix is never taken as a bare id |
| SettingsPanel.ExtractSheetIdOfUrl | frontend/components/SettingsPanel.tsx:12-19 | a spreadsheet URL gives back its id |
| SettingsPanel.ExtractSheetIdOfId | frontend/components/SettingsPanel.tsx:14-15 | a bare id gives back itself |
| SettingsPanel.ExtractSheetIdIdempotent | frontend/components/SettingsPanel.tsx:12-19 | an extracted id extracts to itself |
| SettingsPanel.Panel.constructor | frontend/components/SettingsPanel.tsx:23-24 | the field starts empty with no error |
| SettingsPanel.Panel.HandleChange | frontend/components/SettingsPanel.tsx:26-41 | blank text clears the error and hands on nothing; text without an id sets the error and hands on nothing; otherwise clears it and hands on the id |
| StatusBadge.DotExactlyActive | frontend/components/StatusBadge.tsx:10-21 | a status has a dot exactly when it is queued or in progress |
| StatusBadge.LabelsDistinct | frontend/components/StatusBadge.tsx:10-21 | no two statuses share a label |
| StatusBadge.Fmt | frontend/components/StatusBadge.tsx:23-25 | the text ends in "s" |
| StatusBadge.FmtMeaning | frontend/components/StatusBadge.tsx:24 | under a minute, the seconds; otherwise minutes and seconds under 60 that add up to the duration |
| StatusBadge.FmtInjective | frontend/components/StatusBadge.tsx:24 | different durations never show the same text |
| StatusBadge.Render | frontend/components/StatusBadge.tsx:27-86 | nothing exactly when idle; the status's label; pulsing exactly when queued or in progress; elapsed time exactly when pulsing and positive; a check mark exactly when completed |
| StatusBadge.RenderTellsStatus | frontend/components/StatusBadge.tsx:30 | different statuses render different badges |
| StatusBadge.TickPollingActive | frontend/hooks/useWorkflowPoller.ts:51-94 | a tick keeps the status queued or in progress while the interval is set |
| StatusBadge.RunPollingActive | frontend/hooks/useWorkflowPoller.ts:51-94 | so does any sequence of ticks |
| StatusBadge.BadgePulsesWhilePolling | frontend/components/StatusBadge.tsx:30-31 | the badge of a poller that is still polling pulses |

## Left out

- Processor.PercentTenths: rounds the exact value 1000·placed/opted half up. The source rounds the double `(placed / opted) * 1000`, and for some exact halves that product lands just below .5: 201 placed of 400 opted gives 502.49999999999994, so the source shows 50.2 where the model gives 50.3 (503 tenths). Other such pairs are 203 of 400, 402 of 800 and 1001 of 2000. The branch, gender and overall percentages inherit this difference.
- CtcStats.DropCentury: counts code points, not UTF-16 code units, so it differs for characters outside the Basic Multilingual Plane: `"😀25".slice(2)` is "25" in JavaScript but "5" here.
- Text.StrLess: orders code points, not UTF-16 code units, so it differs for characters outside the Basic Multilingual Plane: U+1F600 sorts after U+FFFD here but before it by code units.
- Papa.parse is a foreign library and is not modelled. The parsers take the rows, with empty lines already skipped, and the reader's errors as inputs.
- Fetching the sheets, rendering the PDF, temporary files, `process.env`, response headers and `NextResponse` serialisation are I/O. Their outcomes are inputs (`GenerateQuickRoute.Post`, `GenerateRoute.GenerateResponse`).
- The internals of `triggerWorkflow` (frontend/lib/github.ts) and of the status route are not part of this model. Their results are inputs.
- Setting `process.env.SPREADSHEET_ID` is not modelled; `Requests.SheetIdOf` gives the id that would be set. The assignment persists in the server process and every later fetch reads it, so a later request without an id uses the last id set; the model has no state across requests.
- JavaScript numbers are modelled as unbounded integers:
  - there is no floating point (the percentages, where doubles change a result, are the `Processor.PercentTenths` line above);
  - `parseInt` of more than 15 digits, which loses precision, is not modelled;
  - JSON numbers in a request body are integers, since only their type is tested.
- `localeCompare` is taken as code-point order. A sort key is the date's third piece, '-' and a two-digit month. The two orders agree when that piece is a digit string such as a year. For other text they can differ: "B-07" comes before "a-07" in code-point order but after it under `localeCompare`. So the model's timeline order may differ from the source's for dates whose year is not a number.
- Object key order: JavaScript lists integer-like keys first. The `branchWise` and flag objects are modelled in insertion order, which matters only for keys such as "12".
- The poller:
  - timing (the 4000 ms interval, the 1500 ms `setTimeout` before `onComplete`) is not modelled;
  - ticks are taken one after the other, so overlapping asynchronous ticks are not modelled;
  - the clock reading and each request's outcome are inputs;
  - `notify` records that the callback was scheduled;
  - `requests` is a counter added so the request limit can be stated.
- HistoryList: the page is not reset when the list of reports changes. `HistoryList.Pager` is built for a fixed number of reports.
- FlagToggles.Toggles.constructor: it takes the flag definitions and requires their flags to be distinct, which `FlagToggles.DefinitionFlagsDistinct` proves of FLAG_DEFINITIONS. A flag not yet a key reads as off and is added on toggling.
- JSX layout, styles, icons and animations are not modelled. So are the settings panel's `open` disclosure toggle, the "Using sheet" text and FLAG_ICONS. The badge's colours, indicator and text are modelled.
- StatusBadge: the separator before the elapsed time is the pair of characters the source file holds ("Â·", a middle dot stored twice-encoded), followed by a space.
- A request body of `null` makes the destructuring throw outside the handler's try block. It is modelled as `Requests.Unhandled`, answered with status 500 and no body.
- The source calls the display name of a flag, branch, month and badge `label`. In the model it is `name`, because `label` is a Dafny keyword.
- GenerateQuickRoute.FlagsToReportOptions: it has no contract of its own. Its properties are stated by the lemmas FlagsToReportOptionsEmpty, FlagsToReportOptionsSet and FlagsToReportOptionsRoundTrip.

## Findings

| source | as written | input that shows it | evidently intended | confidence | as-written member | corrected member |
|---|---|---|---|---|---|---|
| frontend/src/processor.ts:114-115 | `MONTH_NUM[mon]` reads a plain object literal, so the names it inherits from `Object.prototype` (`constructor`, `toString`, …) pass the `!num` guard as months | the offer date "1-constructor-2025" gives a timeline month labelled "constructor '25" whose sort key is "2025-function Object() { [native code] }" | only the twelve month abbreviations are months; any other date is skipped | not executed | CtcStats.ParseMonthKeyAsWrittenAcceptsConstructor | CtcStats.ParseMonthKey |
| frontend/src/processor.ts:82-86 | `cs.branchWise[mergedLabel] = (cs.branchWise[mergedLabel] ?? 0) + 1` reads the plain object `{}`, so a class named after a property of `Object.prototype` reads that property, which is not nullish, and `+ 1` concatenates | a student of class "constructor" with one company stores `"function Object() { [native code] }1"` as that branch's count, and "…11" after a second entry; a student of class "__proto__" stores nothing, while `totalOffers` is 1 | each branch count is the number of entries of that class, and the counts add up to `totalOffers` | not executed | Companies.BumpBranchAsWrittenConstructor | Companies.BumpBranchCount |
