/**
 * The quick-generate API route: it validates the request, then fetches both
 * sheets, parses them, computes the statistics and renders the PDF with the
 * report options the flags select. Fetching and rendering are outside the
 * model; their outcome is an input.
 */
module GenerateQuickRoute {
  import opened Wrappers
  import opened Types
  import opened Requests

  /** The flags this route knows; `--no-charts` is not among them. */
  const VALID_FLAGS: set<string> := {"--sections", "--gender", "--companies", "--no-ctc", "--no-timeline", "--ctc-brackets"}

  /** flagsToReportOptions: each option is set by its flag, and the two `--no-` flags clear theirs. */
  function FlagsToReportOptions(flags: seq<string>): ReportOptions {
    ReportOptions(
      showSections := "--sections" in flags,
      showGender := "--gender" in flags,
      showCompanies := "--companies" in flags,
      showCtc := "--no-ctc" !in flags,
      showTimeline := "--no-timeline" !in flags,
      showCtcBrackets := "--ctc-brackets" in flags)
  }

  /** No flags give the default options. */
  lemma FlagsToReportOptionsEmpty()
    ensures FlagsToReportOptions([]) == DEFAULT_OPTIONS
  {
  }

  /** Only which flags are present matters, not their order or repetition. */
  lemma FlagsToReportOptionsSet(a: seq<string>, b: seq<string>)
    requires forall f :: f in a <==> f in b
    ensures FlagsToReportOptions(a) == FlagsToReportOptions(b)
  {
  }

  /** The flags that select some options, one per option that differs from its default. */
  function OptionsFlags(o: ReportOptions): (flags: seq<string>)
    ensures forall f | f in flags :: f in VALID_FLAGS
  {
    Flag(o.showSections, "--sections") + Flag(o.showGender, "--gender") + Flag(o.showCompanies, "--companies")
    + Flag(!o.showCtc, "--no-ctc") + Flag(!o.showTimeline, "--no-timeline") + Flag(o.showCtcBrackets, "--ctc-brackets")
  }

  /** The flag `name` when `on`, else nothing. */
  function Flag<T>(on: bool, name: T): seq<T> {
    if on then [name] else []
  }

  /** Every combination of options is selected by some valid flags: the flags read back as the options. */
  lemma FlagsToReportOptionsRoundTrip(o: ReportOptions)
    ensures FlagsToReportOptions(OptionsFlags(o)) == o
  {
    FlagNamesDiffer();
    FlagsPresent(o.showSections, o.showGender, o.showCompanies, !o.showCtc, !o.showTimeline, o.showCtcBrackets,
                 "--sections", "--gender", "--companies", "--no-ctc", "--no-timeline", "--ctc-brackets");
  }

  /** With six different names, each name is among the chosen flags exactly when it is on. */
  lemma FlagsPresent<T>(b1: bool, b2: bool, b3: bool, b4: bool, b5: bool, b6: bool,
                        n1: T, n2: T, n3: T, n4: T, n5: T, n6: T)
    requires n1 != n2 && n1 != n3 && n1 != n4 && n1 != n5 && n1 != n6
    requires n2 != n3 && n2 != n4 && n2 != n5 && n2 != n6
    requires n3 != n4 && n3 != n5 && n3 != n6
    requires n4 != n5 && n4 != n6 && n5 != n6
    ensures var fs := Flag(b1, n1) + Flag(b2, n2) + Flag(b3, n3) + Flag(b4, n4) + Flag(b5, n5) + Flag(b6, n6);
      && (n1 in fs <==> b1) && (n2 in fs <==> b2) && (n3 in fs <==> b3)
      && (n4 in fs <==> b4) && (n5 in fs <==> b5) && (n6 in fs <==> b6)
  {
    var f2 := Flag(b1, n1) + Flag(b2, n2);
    var f3 := f2 + Flag(b3, n3);
    var f4 := f3 + Flag(b4, n4);
    var f5 := f4 + Flag(b5, n5);
    var fs := f5 + Flag(b6, n6);
    assert forall y :: y in fs <==> y in f5 || (b6 && y == n6);
    assert forall y :: y in f5 <==> y in f4 || (b5 && y == n5);
    assert forall y :: y in f4 <==> y in f3 || (b4 && y == n4);
    assert forall y :: y in f3 <==> y in f2 || (b3 && y == n3);
    assert forall y :: y in f2 <==> (b1 && y == n1) || (b2 && y == n2);
  }

  /** The six flags are six different strings. */
  lemma FlagNamesDiffer()
    ensures "--sections" != "--gender" && "--sections" != "--companies" && "--sections" != "--no-ctc"
    ensures "--sections" != "--no-timeline" && "--sections" != "--ctc-brackets"
    ensures "--gender" != "--companies" && "--gender" != "--no-ctc" && "--gender" != "--no-timeline"
    ensures "--gender" != "--ctc-brackets" && "--companies" != "--no-ctc"
    ensures "--companies" != "--no-timeline" && "--companies" != "--ctc-brackets"
    ensures "--no-ctc" != "--no-timeline" && "--no-ctc" != "--ctc-brackets" && "--no-timeline" != "--ctc-brackets"
  {
    assert |"--sections"| == 10 && |"--gender"| == 8 && |"--companies"| == 11;
    assert |"--no-ctc"| == 8 && |"--no-timeline"| == 13 && |"--ctc-brackets"| == 14;
    assert "--gender"[2] != "--no-ctc"[2];
    assert "--sections"[2] != "--no-timeline"[2];
  }

  /**
   * POST: the checks in order, the for-of over the flags returning at the
   * first unknown one, and then the work, whose outcome (the PDF, or the
   * message of the error it threw) is given. The options the flags select
   * are returned too.
   */
  method Post(body: Body, outcome: Result<seq<bv8>, string>)
    returns (response: Response, options: Option<ReportOptions>)
    ensures var d := Validate(body, VALID_FLAGS);
      && (d.Proceed? <==> options.Some?)
      && (d.Proceed? ==> options.value == FlagsToReportOptions(d.flags))
      && response == QuickResponse(body, outcome)
  {
    options := None;
    if body.InvalidJson? {
      return Response(400, ErrorBody(INVALID_JSON)), None;
    }
    if body.value.JNull? {
      return UNHANDLED_RESPONSE, None;
    }
    var flagsValue := Property(body.value, "flags");
    var id := Property(body.value, "spreadsheetId");
    if !IsStringArray(flagsValue) {
      return Response(400, ErrorBody(FLAGS_NOT_STRINGS)), None;
    }
    var flags := Strings(flagsValue.value.items);
    for i := 0 to |flags|
      invariant FirstUnknown(flags, VALID_FLAGS) == FirstUnknown(flags[i..], VALID_FLAGS)
    {
      assert flags[i..][1..] == flags[i + 1..];
      if flags[i] !in VALID_FLAGS {
        return Response(400, ErrorBody(UnknownFlagMessage(flags[i]))), None;
      }
    }
    assert flags[|flags|..] == [];
    if !SheetIdAccepted(id) {
      return Response(400, ErrorBody(INVALID_SHEET_ID)), None;
    }
    options := Some(FlagsToReportOptions(flags));
    response := match outcome
      case Ok(pdf) => Response(200, PdfBody(pdf))
      case Err(message) => Response(500, ErrorBody(message));
  }

  /** The response: a refusal, the PDF with 200, or the thrown message with 500. */
  function QuickResponse(body: Body, outcome: Result<seq<bv8>, string>): (r: Response)
    ensures var d := Validate(body, VALID_FLAGS);
      && (r.status == 200 <==> d.Proceed? && outcome.Ok?)
      && (r.status == 400 <==> d.Reject?)
      && (r.status == 500 <==> d.Unhandled? || (d.Proceed? && outcome.Err?))
      && (d.Reject? ==> r.body == ErrorBody(d.error))
      && (d.Unhandled? ==> r == UNHANDLED_RESPONSE)
      && (d.Proceed? && outcome.Ok? ==> r.body == PdfBody(outcome.value))
      && (d.Proceed? && outcome.Err? ==> r.body == ErrorBody(outcome.error))
  {
    var d := Validate(body, VALID_FLAGS);
    if !d.Proceed? then Refusal(d)
    else match outcome
      case Ok(pdf) => Response(200, PdfBody(pdf))
      case Err(message) => Response(500, ErrorBody(message))
  }

  /** A request naming a flag this route does not know is refused with 400 and a message naming the first such flag, whatever the work would give. */
  lemma UnknownFlagResponse(body: Body, outcome: Result<seq<bv8>, string>, f: string)
    requires body.Json? && body.value != JNull && IsStringArray(Property(body.value, "flags"))
    requires FirstUnknown(Strings(Property(body.value, "flags").value.items), VALID_FLAGS) == Some(f)
    ensures QuickResponse(body, outcome) == Response(400, ErrorBody(UnknownFlagMessage(f)))
  {
    ValidateOrder(body, VALID_FLAGS);
  }

  /** `--no-charts` is refused here, by name. */
  lemma NoChartsRefused(body: Body)
    requires body == Json(JObject(map["flags" := JArray([JString("--no-charts")])]))
    ensures Validate(body, VALID_FLAGS) == Reject(400, UnknownFlagMessage("--no-charts"))
  {
    var fs := Strings(Property(body.value, "flags").value.items);
    assert fs == ["--no-charts"];
    assert "--no-charts" !in VALID_FLAGS by {
      assert |"--no-charts"| == 11 && "--no-charts"[2] == 'n';
      assert "--companies"[2] == 'c';
    }
  }
}
