/** The US ZIP code format `^\d{5}(-\d{4})?$` checked by `Property::validateZipCode`. */
module ZipCodes {
  import opened Wrappers

  predicate IsDigit(c: char) {
    '0' <= c <= '9'
  }

  predicate AllDigits(s: string) {
    forall i :: 0 <= i < |s| ==> IsDigit(s[i])
  }

  /** The pattern read as matching the whole string: five digits, optionally followed by
      a hyphen and four more digits. */
  predicate ValidZip(z: string) {
    || (|z| == 5 && AllDigits(z))
    || (|z| == 10 && AllDigits(z[..5]) && z[5] == '-' && AllDigits(z[6..]))
  }

  /** The pattern as `preg_match` applies it: without the `D` modifier, PCRE's `$` also
      matches just before a final newline, so one trailing "\n" is accepted. */
  predicate PregMatchZip(z: string) {
    || ValidZip(z)
    || (|z| > 0 && z[|z| - 1] == '\n' && ValidZip(z[..|z| - 1]))
  }

  /** A ZIP code split into its five-digit group and its optional four-digit extension. */
  datatype ZipParts = ZipParts(five: string, plusFour: Option<string>)

  predicate WellFormedParts(p: ZipParts) {
    && |p.five| == 5 && AllDigits(p.five)
    && (p.plusFour.Some? ==> |p.plusFour.value| == 4 && AllDigits(p.plusFour.value))
  }

  function FormatZip(p: ZipParts): string {
    match p.plusFour
    case None => p.five
    case Some(ext) => p.five + "-" + ext
  }

  /** Splits a ZIP code into its groups; fails exactly when the format is not valid. */
  function ParseZip(z: string): (r: Option<ZipParts>)
    ensures r.Some? <==> ValidZip(z)
    ensures r.Some? ==> WellFormedParts(r.value)
  {
    if |z| == 5 && AllDigits(z) then Some(ZipParts(z, None))
    else if |z| == 10 && AllDigits(z[..5]) && z[5] == '-' && AllDigits(z[6..]) then
      Some(ZipParts(z[..5], Some(z[6..])))
    else None
  }

  /** Formatting well-formed groups gives a valid ZIP code that parses back to them. */
  lemma FormatThenParse(p: ZipParts)
    requires WellFormedParts(p)
    ensures ValidZip(FormatZip(p))
    ensures ParseZip(FormatZip(p)) == Some(p)
  {
    var z := FormatZip(p);
    if p.plusFour.Some? {
      assert z[..5] == p.five;
      assert z[6..] == p.plusFour.value;
    }
  }

  /** A parsed ZIP code formats back to the same string. */
  lemma ParseThenFormat(z: string)
    requires ValidZip(z)
    ensures FormatZip(ParseZip(z).value) == z
  {
    if |z| == 10 {
      assert z == z[..5] + "-" + z[6..];
    }
  }

  /** The examples of the unit tests: accepted and rejected formats. */
  lemma ZipExamples()
    ensures ValidZip("78701") && ValidZip("78701-1234") && ValidZip("62701")
    ensures !ValidZip("1234") && !ValidZip("invalid") && !ValidZip("7870A")
  {
    assert !IsDigit("7870A"[4]);
  }

  /** As written, `validateZipCode` lets a ZIP code with a trailing newline through. */
  lemma PregMatchAcceptsTrailingNewline()
    ensures PregMatchZip("78701\n")
    ensures !ValidZip("78701\n")
  {
    assert "78701\n"[..5] == "78701";
  }

  /** On strings without a newline, the `preg_match` reading and `ValidZip` agree. */
  lemma PregMatchAgreesWithoutNewline(z: string)
    requires forall i :: 0 <= i < |z| ==> z[i] != '\n'
    ensures PregMatchZip(z) <==> ValidZip(z)
  {
  }
}
