/**
 * Spreadsheet ids: the character class `[a-zA-Z0-9_-]` and the anchored
 * pattern `^[a-zA-Z0-9_-]{10,60}$` that both API routes and the settings
 * panel test.
 */
module SheetIds {

  predicate IsIdChar(c: char) {
    ('a' <= c <= 'z') || ('A' <= c <= 'Z') || ('0' <= c <= '9') || c == '_' || c == '-'
  }

  predicate AllIdChars(s: string) {
    forall i | 0 <= i < |s| :: IsIdChar(s[i])
  }

  /** The whole string matches `^[a-zA-Z0-9_-]{10,60}$`. */
  predicate IsSheetId(s: string) {
    10 <= |s| <= 60 && AllIdChars(s)
  }

  /** The length of the longest run of id characters at the front of s. */
  function IdRun(s: string): (n: nat)
    ensures n <= |s|
    ensures AllIdChars(s[..n])
    ensures n < |s| ==> !IsIdChar(s[n])
  {
    if s == [] || !IsIdChar(s[0]) then 0
    else
      var n := 1 + IdRun(s[1..]);
      assert forall i | 1 <= i < n :: s[..n][i] == s[1..][..n - 1][i - 1];
      n
  }

  /** The run is the longest: no run of id characters is longer. */
  lemma {:induction false} IdRunLongest(s: string, m: nat)
    requires m <= |s| && AllIdChars(s[..m])
    ensures m <= IdRun(s)
  {
    if m > 0 {
      assert s[1..][..m - 1] == s[..m][1..];
      IdRunLongest(s[1..], m - 1);
    }
  }
}
