/**
 * What the two report API routes share: the JSON request body, the checks run
 * on it in order (JSON, the shape of `flags`, each flag against a set of known
 * flags, the format of `spreadsheetId`), and the responses.
 */
module Requests {
  import opened Wrappers
  import opened SheetIds

  /** A value JSON.parse can produce. Numbers are kept as integers: only their type matters here. */
  datatype JsonValue =
    | JNull
    | JBool(b: bool)
    | JNumber(n: int)
    | JString(s: string)
    | JArray(items: seq<JsonValue>)
    | JObject(fields: map<string, JsonValue>)

  /** The request body: text that is not JSON, or the value it parses to. */
  datatype Body = InvalidJson | Json(value: JsonValue)

  /** A property read on a parsed value; None is `undefined`. Only objects have own properties here. */
  function Property(v: JsonValue, key: string): (p: Option<JsonValue>)
    ensures p.Some? <==> v.JObject? && key in v.fields
  {
    if v.JObject? && key in v.fields then Some(v.fields[key]) else None
  }

  /** `Array.isArray(flags) && flags.every((f) => typeof f === 'string')`. */
  predicate IsStringArray(flags: Option<JsonValue>) {
    && flags.Some?
    && flags.value.JArray?
    && forall i | 0 <= i < |flags.value.items| :: flags.value.items[i].JString?
  }

  /** The strings of an array of strings, in order. */
  function Strings(items: seq<JsonValue>): (ss: seq<string>)
    requires forall i | 0 <= i < |items| :: items[i].JString?
    ensures |ss| == |items|
    ensures forall i | 0 <= i < |items| :: items[i] == JString(ss[i])
  {
    if items == [] then [] else [items[0].s] + Strings(items[1..])
  }

  /** r is the first flag, in order, that is not known; None when all are. */
  predicate IsFirstUnknown(flags: seq<string>, known: set<string>, r: Option<string>) {
    && (r.None? <==> forall i | 0 <= i < |flags| :: flags[i] in known)
    && (r.Some? ==> exists i | 0 <= i < |flags| ::
          flags[i] == r.value && r.value !in known && forall j | 0 <= j < i :: flags[j] in known)
  }

  /** The for-of loop over the flags that returns at the first one not known. */
  function FirstUnknown(flags: seq<string>, known: set<string>): (r: Option<string>)
    ensures IsFirstUnknown(flags, known, r)
  {
    if flags == [] then None
    else if flags[0] !in known then
      Some(flags[0])
    else
      var r := FirstUnknown(flags[1..], known);
      FirstUnknownCons(flags, known, r);
      r
  }

  lemma FirstUnknownCons(flags: seq<string>, known: set<string>, r: Option<string>)
    requires flags != [] && flags[0] in known
    requires IsFirstUnknown(flags[1..], known, r)
    ensures IsFirstUnknown(flags, known, r)
  {
    if r.Some? {
      var i :| 0 <= i < |flags[1..]| && flags[1..][i] == r.value && r.value !in known
               && forall j | 0 <= j < i :: flags[1..][j] in known;
      assert flags[i + 1] == r.value;
      forall j | 0 <= j < i + 1 ensures flags[j] in known {
        if j > 0 { assert flags[j] == flags[1..][j - 1]; }
      }
    } else {
      forall i | 0 <= i < |flags| ensures flags[i] in known {
        if i > 0 { assert flags[i] == flags[1..][i - 1]; }
      }
    }
  }

  /**
   * The spreadsheetId check: absent and null pass; anything else must be a
   * string matching `^[a-zA-Z0-9_-]{10,60}$`.
   */
  predicate SheetIdAccepted(id: Option<JsonValue>) {
    id.None? || id.value.JNull? || (id.value.JString? && IsSheetId(id.value.s))
  }

  /** The spreadsheet id handed on once the checks pass: a given id, or None, which keeps whatever id the process currently uses. */
  function SheetIdOf(id: Option<JsonValue>): (r: Option<string>)
    requires SheetIdAccepted(id)
    ensures r.Some? ==> IsSheetId(r.value)
  {
    if id.Some? && id.value.JString? then Some(id.value.s) else None
  }

  const INVALID_JSON: string := "Invalid JSON"
  const FLAGS_NOT_STRINGS: string := "flags must be an array of strings"
  const INVALID_SHEET_ID: string := "Invalid spreadsheetId format"

  function UnknownFlagMessage(flag: string): string {
    "Unknown flag: " + flag
  }

  /**
   * What a route decides before any work: refuse with a status and message,
   * fail outside its error handling, or go ahead with the flags and the
   * spreadsheet.
   */
  datatype Decision =
    | Reject(status: nat, error: string)
    | Unhandled
    | Proceed(flags: seq<string>, spreadsheetId: Option<string>)

  /**
   * The checks both routes run, in order, with the set of flags the route
   * knows. A body of `null` makes the destructuring of the body throw before
   * any check, outside every try block.
   */
  function Validate(body: Body, known: set<string>): (d: Decision)
    ensures d.Reject? ==> d.status == 400
    ensures d.Unhandled? <==> body == Json(JNull)
    ensures d.Proceed? <==>
      && body.Json? && body.value != JNull
      && IsStringArray(Property(body.value, "flags"))
      && (forall f | f in Strings(Property(body.value, "flags").value.items) :: f in known)
      && SheetIdAccepted(Property(body.value, "spreadsheetId"))
    ensures d.Proceed? ==>
      && d.flags == Strings(Property(body.value, "flags").value.items)
      && (d.spreadsheetId.Some? ==> IsSheetId(d.spreadsheetId.value))
  {
    if body.InvalidJson? then Reject(400, INVALID_JSON)
    else if body.value.JNull? then Unhandled
    else
      var flags := Property(body.value, "flags");
      var id := Property(body.value, "spreadsheetId");
      if !IsStringArray(flags) then Reject(400, FLAGS_NOT_STRINGS)
      else
        var fs := Strings(flags.value.items);
        match FirstUnknown(fs, known)
        case Some(f) => Reject(400, UnknownFlagMessage(f))
        case None =>
          if !SheetIdAccepted(id) then Reject(400, INVALID_SHEET_ID)
          else Proceed(fs, SheetIdOf(id))
  }

  /**
   * The checks run in order: a body that is not JSON is refused as such, a bad
   * flags value before any flag is looked at, the first unknown flag before
   * the spreadsheet id.
   */
  lemma {:induction false} ValidateOrder(body: Body, known: set<string>)
    ensures body.InvalidJson? ==> Validate(body, known) == Reject(400, INVALID_JSON)
    ensures body.Json? && body.value != JNull && !IsStringArray(Property(body.value, "flags")) ==>
      Validate(body, known) == Reject(400, FLAGS_NOT_STRINGS)
    ensures body.Json? && body.value != JNull && IsStringArray(Property(body.value, "flags")) ==>
      var fs := Strings(Property(body.value, "flags").value.items);
      FirstUnknown(fs, known).Some? ==>
        Validate(body, known) == Reject(400, UnknownFlagMessage(FirstUnknown(fs, known).value))
  {
  }

  /** Knowing more flags never turns an accepted request into a refused one. */
  lemma {:induction false} ValidateMonotone(body: Body, known: set<string>, more: set<string>)
    requires known <= more
    requires Validate(body, known).Proceed?
    ensures Validate(body, more) == Validate(body, known)
  {
    var fs := Strings(Property(body.value, "flags").value.items);
    assert FirstUnknown(fs, known).None?;
    assert FirstUnknown(fs, more).None?;
  }

  /** A response: its status and its JSON or PDF body. */
  datatype ResponseBody =
    | ErrorBody(error: string)
    | RunIdBody(runId: int)
    | PdfBody(pdf: seq<bv8>)
    | NoBody

  datatype Response = Response(status: nat, body: ResponseBody)

  /** What the framework answers for an exception thrown outside the handler's try blocks. */
  const UNHANDLED_RESPONSE: Response := Response(500, NoBody)

  /** The response of a refusal or an unhandled failure. */
  function Refusal(d: Decision): (r: Response)
    requires !d.Proceed?
    ensures d.Reject? ==> r == Response(d.status, ErrorBody(d.error))
    ensures d.Unhandled? ==> r.status == 500
  {
    if d.Reject? then Response(d.status, ErrorBody(d.error)) else UNHANDLED_RESPONSE
  }
}
