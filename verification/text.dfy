/** The PHP string built-ins the domain rules rely on: `trim`, `empty` on a string and
    `strtoupper` (ASCII-only, as in PHP 8.2 and later). */
module Text {

  const Nul: char := 0 as char
  const VerticalTab: char := 11 as char

  /** The characters `trim` strips when called without a character list. */
  predicate IsTrimmable(c: char) {
    c == ' ' || c == '\t' || c == '\n' || c == '\r' || c == Nul || c == VerticalTab
  }

  predicate AllTrimmable(s: string) {
    forall i :: 0 <= i < |s| ==> IsTrimmable(s[i])
  }

  /** Length of the run of trimmable characters at the front of `s`. */
  function LeadingRun(s: string): (k: nat)
    ensures k <= |s|
    ensures forall i :: 0 <= i < k ==> IsTrimmable(s[i])
    ensures k < |s| ==> !IsTrimmable(s[k])
  {
    if |s| == 0 || !IsTrimmable(s[0]) then 0 else 1 + LeadingRun(s[1..])
  }

  /** Length of the run of trimmable characters at the back of `s`. */
  function TrailingRun(s: string): (k: nat)
    ensures k <= |s|
    ensures forall i :: |s| - k <= i < |s| ==> IsTrimmable(s[i])
    ensures k < |s| ==> !IsTrimmable(s[|s| - k - 1])
  {
    if |s| == 0 || !IsTrimmable(s[|s| - 1]) then 0 else 1 + TrailingRun(s[..|s| - 1])
  }

  /** `trim($s)`: `s` without its leading and trailing trimmable characters. */
  function Trim(s: string): (r: string)
    ensures LeadingRun(s) + |r| <= |s|
    ensures r == s[LeadingRun(s)..LeadingRun(s) + |r|]
    ensures forall i :: 0 <= i < LeadingRun(s) ==> IsTrimmable(s[i])
    ensures forall i :: LeadingRun(s) + |r| <= i < |s| ==> IsTrimmable(s[i])
    ensures r != [] ==> !IsTrimmable(r[0]) && !IsTrimmable(r[|r| - 1])
  {
    var rest := s[LeadingRun(s)..];
    rest[..|rest| - TrailingRun(rest)]
  }

  /** PHP `empty()` on a string: true for "" and for "0". */
  predicate IsEmptyString(s: string) {
    s == "" || s == "0"
  }

  /** `empty(trim($s))`. */
  predicate IsBlank(s: string) {
    IsEmptyString(Trim(s))
  }

  /** Reference: all of `s` is padding around a single "0". */
  predicate IsPaddedZero(s: string) {
    exists k :: 0 <= k < |s| && s[k] == '0' && forall i :: 0 <= i < |s| && i != k ==> IsTrimmable(s[i])
  }

  /** Trimming leaves nothing exactly when every character is trimmable. */
  lemma TrimEmptyIff(s: string)
    ensures Trim(s) == "" <==> AllTrimmable(s)
  {
    var r := Trim(s);
    if r != "" {
      assert r[0] == s[LeadingRun(s)];
      assert !IsTrimmable(s[LeadingRun(s)]);
    }
  }

  /** `empty(trim($s))` holds exactly for strings made only of whitespace, and for a single
      "0" surrounded by whitespace. */
  lemma BlankIff(s: string)
    ensures IsBlank(s) <==> AllTrimmable(s) || IsPaddedZero(s)
  {
    TrimEmptyIff(s);
    var lead := LeadingRun(s);
    var r := Trim(s);
    if r == "0" {
      assert s[lead] == '0';
      assert forall i :: 0 <= i < |s| && i != lead ==> IsTrimmable(s[i]);
    }
    if IsPaddedZero(s) && !AllTrimmable(s) {
      var k :| 0 <= k < |s| && s[k] == '0' && forall i :: 0 <= i < |s| && i != k ==> IsTrimmable(s[i]);
      assert !IsTrimmable(s[k]);
      assert lead <= k;
      assert !IsTrimmable(s[lead]);
      assert lead == k;
      assert |r| >= 1;
      assert s[lead + |r| - 1] == r[|r| - 1];
      assert !IsTrimmable(s[lead + |r| - 1]);
      assert |r| == 1;
      assert r[0] == s[k];
      assert r == "0";
    }
  }

  function UpperChar(c: char): char {
    if 'a' <= c <= 'z' then (c as int - 32) as char else c
  }

  /** `strtoupper($s)`: ASCII lower-case letters mapped to upper case, all else kept. */
  function Upper(s: string): (r: string)
    ensures |r| == |s|
  {
    seq(|s|, i requires 0 <= i < |s| => UpperChar(s[i]))
  }

  predicate HasNoLowerCase(s: string) {
    forall i :: 0 <= i < |s| ==> !('a' <= s[i] <= 'z')
  }

  /** Upper-casing leaves no lower-case letter behind, is idempotent, and leaves a string
      without lower-case letters as it is. */
  lemma UpperNormalises(s: string)
    ensures HasNoLowerCase(Upper(s))
    ensures Upper(Upper(s)) == Upper(s)
    ensures HasNoLowerCase(s) ==> Upper(s) == s
  {
  }
}
