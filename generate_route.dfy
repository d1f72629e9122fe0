/**
 * The generate API route: it validates the request against the flags of
 * FLAG_MAP and starts the report workflow, whose outcome (the run id, or the
 * message of the error it threw) is an input.
 */
module GenerateRoute {
  import opened Wrappers
  import opened Requests
  import opened Constants
  import GenerateQuickRoute

  /** What POST decides before starting the workflow. */
  function GenerateDecision(body: Body): Decision {
    Validate(body, FLAG_MAP_KEYS)
  }

  /**
   * POST: a refusal, 201 with the run id when the workflow started, or 502
   * with the message when starting it threw. The workflow is started only
   * when every check passes.
   */
  function GenerateResponse(body: Body, trigger: Result<int, string>): (r: Response)
    ensures var d := GenerateDecision(body);
      && (r.status == 201 <==> d.Proceed? && trigger.Ok?)
      && (r.status == 201 ==> r.body == RunIdBody(trigger.value))
      && (r.status == 502 <==> d.Proceed? && trigger.Err?)
      && (r.status == 400 <==> d.Reject?)
      && (r.status == 500 <==> d.Unhandled?)
      && (d.Reject? ==> r.body == ErrorBody(d.error))
      && (d.Unhandled? ==> r == UNHANDLED_RESPONSE)
      && (r.status == 502 ==> r.body == ErrorBody(trigger.error))
  {
    var d := GenerateDecision(body);
    if !d.Proceed? then Refusal(d)
    else match trigger
      case Ok(runId) => Response(201, RunIdBody(runId))
      case Err(message) => Response(502, ErrorBody(message))
  }

  /** Every flag the quick route knows is in FLAG_MAP. */
  lemma QuickFlagsKnown()
    ensures GenerateQuickRoute.VALID_FLAGS <= FLAG_MAP_KEYS
  {
    forall f | f in GenerateQuickRoute.VALID_FLAGS ensures f in FLAG_MAP_KEYS {
      FlagMapKeys(f);
    }
  }

  /** A request the quick route accepts is accepted here too, with the same flags and spreadsheet. */
  lemma QuickAcceptedGenerateAccepted(body: Body)
    requires Validate(body, GenerateQuickRoute.VALID_FLAGS).Proceed?
    ensures GenerateDecision(body) == Validate(body, GenerateQuickRoute.VALID_FLAGS)
  {
    QuickFlagsKnown();
    ValidateMonotone(body, GenerateQuickRoute.VALID_FLAGS, FLAG_MAP_KEYS);
  }

  /** `--no-charts`, refused by the quick route, is accepted here. */
  lemma NoChartsAccepted(body: Body)
    requires body == Json(JObject(map["flags" := JArray([JString("--no-charts")])]))
    ensures GenerateDecision(body) == Proceed(["--no-charts"], None)
  {
    var fs := Strings(Property(body.value, "flags").value.items);
    assert fs == ["--no-charts"];
    FlagMapKeys("--no-charts");
    assert "--no-charts" in FLAG_MAP_KEYS;
  }
}
