/** The report flags the dashboard offers and the workflow accepts. */
module Constants {

  /** Additive flags add a section to the report; advanced flags remove or skip something. */
  datatype FlagGroup = Additive | Advanced

  /** One report flag; the source calls the display name `label`. */
  datatype FlagDefinition = FlagDefinition(
    flag: string,
    name: string,
    description: string,
    group: FlagGroup,
    defaultEnabled: bool)

  const FLAG_DEFINITIONS: seq<FlagDefinition> := [
    FlagDefinition("--sections", "Section Breakdown",
      "Show individual section breakdown (AIDS A/B, IOT A/B) instead of merged branches", Additive, false),
    FlagDefinition("--gender", "Gender Breakdown",
      "Include gender-wise placement breakdown chart", Additive, false),
    FlagDefinition("--companies", "Company Analysis",
      "Include company-wise breakdown page with detailed recruiter stats", Additive, false),
    FlagDefinition("--ctc-brackets", "CTC Brackets",
      "Show CTC bracket distribution chart (0\U{2013}6, 6\U{2013}10, 10\U{2013}20, 20+ LPA)", Additive, false),
    FlagDefinition("--no-ctc", "Hide CTC Page",
      "Hide the CTC & offer type analysis page from the report", Advanced, false),
    FlagDefinition("--no-timeline", "Hide Timeline",
      "Hide the month-by-month offer activity timeline", Advanced, false),
    FlagDefinition("--no-charts", "Skip Charts",
      "Skip chart generation (faster, tables only)", Advanced, false)
  ]

  /** The keys of FLAG_MAP: the flag of every definition. */
  const FLAG_MAP_KEYS: set<string> := set d | d in FLAG_DEFINITIONS :: d.flag

  /** FLAG_MAP.has: every one of the seven defined flags is known, and nothing else. */
  lemma FlagMapKeys(f: string)
    ensures f in FLAG_MAP_KEYS <==>
      f in ["--sections", "--gender", "--companies", "--ctc-brackets", "--no-ctc", "--no-timeline", "--no-charts"]
  {
    var ds := FLAG_DEFINITIONS;
    var fs := ["--sections", "--gender", "--companies", "--ctc-brackets", "--no-ctc", "--no-timeline", "--no-charts"];
    assert forall i | 0 <= i < 7 :: ds[i].flag == fs[i];
    if f in FLAG_MAP_KEYS {
      var d :| d in ds && d.flag == f;
      var i :| 0 <= i < |ds| && ds[i] == d;
      assert f == fs[i];
    }
    if f in fs {
      var i :| 0 <= i < |fs| && fs[i] == f;
      assert ds[i] in ds;
    }
  }

  /** The definitions by position: the first four additive, the other three advanced, none on by default. */
  lemma FlagDefinitionsShape()
    ensures |FLAG_DEFINITIONS| == 7
    ensures forall i | 0 <= i < 4 :: FLAG_DEFINITIONS[i].group == Additive
    ensures forall i | 4 <= i < 7 :: FLAG_DEFINITIONS[i].group == Advanced
    ensures forall i | 0 <= i < 7 :: !FLAG_DEFINITIONS[i].defaultEnabled
    ensures FLAG_DEFINITIONS[0].flag == "--sections" && FLAG_DEFINITIONS[1].flag == "--gender"
    ensures FLAG_DEFINITIONS[2].flag == "--companies" && FLAG_DEFINITIONS[3].flag == "--ctc-brackets"
  {
  }

  /** No flag is defined twice. */
  lemma FlagDefinitionsDistinct()
    ensures forall i, j | 0 <= i < j < |FLAG_DEFINITIONS| :: FLAG_DEFINITIONS[i].flag != FLAG_DEFINITIONS[j].flag
  {
    var ds := FLAG_DEFINITIONS;
    assert |ds[0].flag| == 10 && |ds[1].flag| == 8 && |ds[2].flag| == 11 && |ds[3].flag| == 14;
    assert |ds[4].flag| == 8 && |ds[5].flag| == 13 && |ds[6].flag| == 11;
    assert ds[1].flag[2] == 'g' && ds[4].flag[2] == 'n';
    assert ds[2].flag[2] == 'c' && ds[6].flag[2] == 'n';
  }
}
