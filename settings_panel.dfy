/**
 * The settings panel: a text field where a spreadsheet URL or id is pasted.
 * Each change extracts the id, shows an error when there is none, and hands
 * the id (or nothing) to the page.
 */
module SettingsPanel {
  import opened Wrappers
  import opened Text
  import opened SheetIds

  /** The literal part of SHEET_URL_RE that precedes the captured id. */
  const SHEET_URL_PREFIX: string := "https://docs.google.com/spreadsheets/d/"

  /**
   * SHEET_URL_RE tried at position i: the prefix, then 10 to 60 id characters,
   * of which the greedy group captures as many as there are, up to 60.
   */
  function MatchAt(s: string, i: nat): (m: Option<string>)
    ensures m.Some? ==> IsSheetId(m.value)
    ensures m.Some? <==>
      i + |SHEET_URL_PREFIX| <= |s| && s[i..i + |SHEET_URL_PREFIX|] == SHEET_URL_PREFIX
      && IdRun(s[i + |SHEET_URL_PREFIX|..]) >= 10
  {
    var p := |SHEET_URL_PREFIX|;
    if i + p <= |s| && s[i..i + p] == SHEET_URL_PREFIX then
      var rest := s[i + p..];
      var n := IdRun(rest);
      if n >= 10 then
        var k := if n <= 60 then n else 60;
        assert rest[..k] == rest[..n][..k];
        Some(rest[..k])
      else None
    else None
  }

  /** String.prototype.match with SHEET_URL_RE from position i on: the first position that matches gives the id. */
  function UrlMatch(s: string, i: nat): (m: Option<string>)
    requires i <= |s|
    ensures m.Some? ==> IsSheetId(m.value)
    ensures m.None? <==> forall j | i <= j <= |s| :: MatchAt(s, j).None?
    decreases |s| - i
  {
    if MatchAt(s, i).Some? then MatchAt(s, i)
    else if i == |s| then None
    else UrlMatch(s, i + 1)
  }

  /** The match found is the leftmost: it is the match at some position, and no earlier position matches. */
  lemma {:induction false} UrlMatchLeftmost(s: string, i: nat)
    requires i <= |s| && UrlMatch(s, i).Some?
    ensures exists j | i <= j <= |s| :: MatchAt(s, j) == UrlMatch(s, i) && forall k | i <= k < j :: MatchAt(s, k).None?
    decreases |s| - i
  {
    if MatchAt(s, i).Some? {
      assert MatchAt(s, i) == UrlMatch(s, i);
    } else {
      UrlMatchLeftmost(s, i + 1);
      var j :| i + 1 <= j <= |s| && MatchAt(s, j) == UrlMatch(s, i + 1) && forall k | i + 1 <= k < j :: MatchAt(s, k).None?;
      assert forall k | i <= k < j :: MatchAt(s, k).None?;
    }
  }

  /**
   * extractSheetId: the trimmed input itself when it is an id, otherwise the
   * id captured from the leftmost spreadsheet URL in it, otherwise null.
   */
  function ExtractSheetId(input: string): (r: Option<string>)
    ensures r.Some? ==> IsSheetId(r.value)
    ensures IsSheetId(Trim(input)) ==> r == Some(Trim(input))
    ensures !IsSheetId(Trim(input)) ==> r == UrlMatch(Trim(input), 0)
  {
    var trimmed := Trim(input);
    if IsSheetId(trimmed) then Some(trimmed) else UrlMatch(trimmed, 0)
  }

  /** The prefix is not an id: it holds ':' and '/'. */
  lemma PrefixNotId(s: string)
    requires |s| >= |SHEET_URL_PREFIX| && s[..|SHEET_URL_PREFIX|] == SHEET_URL_PREFIX
    ensures !IsSheetId(s)
  {
    assert s[5] == SHEET_URL_PREFIX[5] == ':';
  }

  /**
   * A spreadsheet URL gives back its id: the prefix, an id, then nothing or a
   * character that cannot continue an id (a '/', say) and anything after it.
   */
  lemma ExtractSheetIdOfUrl(id: string, tail: string)
    requires IsSheetId(id)
    requires tail == [] || (!IsIdChar(tail[0]) && !IsSpace(tail[|tail| - 1]))
    ensures ExtractSheetId(SHEET_URL_PREFIX + id + tail) == Some(id)
  {
    var s := SHEET_URL_PREFIX + id + tail;
    UrlTrimmed(id, tail);
    assert s[..|SHEET_URL_PREFIX|] == SHEET_URL_PREFIX;
    PrefixNotId(s);
    ExtractOfTrimmedUrl(s);
    MatchAtUrl(id, tail);
  }

  /** Text with nothing to trim that is not an id is searched for a URL. */
  lemma ExtractOfTrimmedUrl(s: string)
    requires IsTrimmed(s) && !IsSheetId(s)
    ensures ExtractSheetId(s) == UrlMatch(s, 0)
  {
    TrimTrimmed(s);
  }

  /** A URL starting with the prefix and ending in an id or a non-space has nothing to trim. */
  lemma UrlTrimmed(id: string, tail: string)
    requires IsSheetId(id)
    requires tail == [] || !IsSpace(tail[|tail| - 1])
    ensures IsTrimmed(SHEET_URL_PREFIX + id + tail)
  {
    var s := SHEET_URL_PREFIX + id + tail;
    assert s[0] == 'h';
    if tail == [] { assert s[|s| - 1] == id[|id| - 1]; }
    else { assert s[|s| - 1] == tail[|tail| - 1]; }
  }

  /** The pattern matches a URL at its start and captures the id. */
  lemma MatchAtUrl(id: string, tail: string)
    requires IsSheetId(id)
    requires tail == [] || !IsIdChar(tail[0])
    ensures MatchAt(SHEET_URL_PREFIX + id + tail, 0) == Some(id)
  {
    var s := SHEET_URL_PREFIX + id + tail;
    var p := |SHEET_URL_PREFIX|;
    assert s[0..p] == SHEET_URL_PREFIX;
    var rest := s[p..];
    assert rest == id + tail;
    IdRunOf(id, tail);
    assert rest[..|id|] == id;
  }

  /** The run of id characters of an id followed by a non-id character is the id. */
  lemma {:induction false} IdRunOf(id: string, tail: string)
    requires AllIdChars(id)
    requires tail == [] || !IsIdChar(tail[0])
    ensures IdRun(id + tail) == |id|
  {
    var s := id + tail;
    assert s[..|id|] == id;
    IdRunLongest(s, |id|);
  }

  /** An id extracts to itself. */
  lemma ExtractSheetIdOfId(id: string)
    requires IsSheetId(id)
    ensures ExtractSheetId(id) == Some(id)
  {
    assert IsIdChar(id[0]) && IsIdChar(id[|id| - 1]);
    TrimTrimmed(id);
  }

  /** An extracted id extracts to itself: pasting it back in keeps the same spreadsheet. */
  lemma ExtractSheetIdIdempotent(input: string)
    requires ExtractSheetId(input).Some?
    ensures ExtractSheetId(ExtractSheetId(input).value) == ExtractSheetId(input)
  {
    ExtractSheetIdOfId(ExtractSheetId(input).value);
  }

  const ERROR_MESSAGE: string := "Paste a Google Sheets URL or a valid spreadsheet ID"

  /**
   * The panel's state: the text typed and the error shown. The `open` toggle
   * of the disclosure button only shows or hides the field.
   */
  class Panel {
    var input: string
    var error: string

    /** The error shown is the one the current text calls for. */
    predicate Consistent()
      reads this
    {
      error == (if Trim(input) != [] && ExtractSheetId(input).None? then ERROR_MESSAGE else "")
    }

    constructor()
      ensures input == "" && error == ""
      ensures Consistent()
    {
      input := "";
      error := "";
    }

    /**
     * handleChange: record the text; blank text clears the error and hands on
     * nothing; text with no id sets the error and hands on nothing; otherwise
     * the error is cleared and the id is handed on.
     */
    method HandleChange(value: string) returns (emitted: Option<string>)
      modifies this
      ensures input == value
      ensures Trim(value) == [] ==> error == "" && emitted == None
      ensures Trim(value) != [] && ExtractSheetId(value).None? ==> error == ERROR_MESSAGE && emitted == None
      ensures Trim(value) != [] && ExtractSheetId(value).Some? ==> error == "" && emitted == ExtractSheetId(value)
      ensures Consistent()
      ensures emitted.Some? ==> IsSheetId(emitted.value)
    {
      input := value;
      if Trim(value) == [] {
        error := "";
        return None;
      }
      var id := ExtractSheetId(value);
      if id.None? {
        error := ERROR_MESSAGE;
        emitted := None;
      } else {
        error := "";
        emitted := id;
      }
    }
  }
}
