/** Stable version numbers X.Y.Z (governance/versioning.py; sections 2 and 11 of SemVer 2.0.0). */
module Versions {
  import opened Text
  import opened LawText

  datatype Version = Version(major: nat, minor: nat, patch: nat)

  /** A numeric identifier: digits without a leading zero. */
  predicate IsNumeric(s: string) { IsDigits(s) && (s == "0" || s[0] != '0') }

  /** `_version_key`, if the text is a version. */
  function VersionKey(s: string): Option<Version> {
    var i := Find(s, '.');
    if i == |s| then None
    else
      var rest := s[i + 1..];
      var j := Find(rest, '.');
      if j == |rest| || !IsNumeric(s[..i]) || !IsNumeric(rest[..j]) || !IsNumeric(rest[j + 1..]) then None
      else Some(Version(ValueOf(s[..i]), ValueOf(rest[..j]), ValueOf(rest[j + 1..])))
  }

  function VersionText(v: Version): string {
    Decimal(v.major) + ("." + (Decimal(v.minor) + ("." + Decimal(v.patch))))
  }

  /** Precedence: major, then minor, then patch. */
  predicate Precedes(a: Version, b: Version) {
    a.major < b.major || (a.major == b.major && (a.minor < b.minor || (a.minor == b.minor && a.patch < b.patch)))
  }

  lemma PrecedenceIsStrictOrder(a: Version, b: Version, c: Version)
    ensures !Precedes(a, a)
    ensures Precedes(a, b) && Precedes(b, c) ==> Precedes(a, c)
    ensures a == b || Precedes(a, b) || Precedes(b, a)
  {}

  lemma {:induction false} DecimalIsNumeric(n: nat)
    ensures IsNumeric(Decimal(n)) && (Decimal(n)[0] == '0' ==> n == 0)
  {
    DecimalRoundTrip(n);
    if n >= 10 { DecimalIsNumeric(n / 10); }
  }

  lemma {:induction false} LeadingDigitCounts(s: string)
    requires IsDigits(s) && s[0] != '0'
    ensures ValueOf(s) >= 1
  {
    if |s| > 1 { LeadingDigitCounts(s[..|s| - 1]); }
  }

  lemma {:induction false} NumericIsDecimal(s: string)
    requires IsNumeric(s)
    ensures Decimal(ValueOf(s)) == s
  {
    var last := DigitValue(s[|s| - 1]);
    assert Digit(last) == s[|s| - 1];
    if |s| == 1 {
      assert s[..0] == [] && ValueOf(s) == last;
    } else {
      var front := s[..|s| - 1];
      LeadingDigitCounts(front);
      NumericIsDecimal(front);
      assert ValueOf(s) == 10 * ValueOf(front) + last;
      assert s == front + [s[|s| - 1]];
    }
  }

  lemma FirstPoint(digits: string, rest: string)
    requires IsDigits(digits)
    ensures var s := digits + ("." + rest); Find(s, '.') == |digits| && s[..|digits|] == digits && s[|digits| + 1..] == rest
  {
    var s := digits + ("." + rest);
    assert forall i :: 0 <= i < |digits| ==> s[i] == digits[i];
    FindIs(s, '.', |digits|);
  }

  /** Every version is read back from its text. */
  lemma VersionRoundTrip(v: Version)
    ensures VersionKey(VersionText(v)) == Some(v)
  {
    DecimalRoundTrip(v.major);
    DecimalRoundTrip(v.minor);
    DecimalRoundTrip(v.patch);
    DecimalIsNumeric(v.major);
    DecimalIsNumeric(v.minor);
    DecimalIsNumeric(v.patch);
    FirstPoint(Decimal(v.major), Decimal(v.minor) + ("." + Decimal(v.patch)));
    FirstPoint(Decimal(v.minor), Decimal(v.patch));
    hide Decimal, ValueOf, IsNumeric, Find;
  }

  lemma SplitAt(s: string, k: nat)
    requires k < |s| && s[k] == '.'
    ensures s == s[..k] + ("." + s[k + 1..])
  {}

  /** And a version has only one text, so equal keys mean equal texts. */
  lemma VersionIsCanonical(s: string)
    requires VersionKey(s).Some?
    ensures s == VersionText(VersionKey(s).value)
  {
    hide Decimal, ValueOf, IsNumeric, Find;
    var i := Find(s, '.');
    var rest := s[i + 1..];
    var j := Find(rest, '.');
    SplitAt(s, i);
    SplitAt(rest, j);
    NumericIsDecimal(s[..i]);
    NumericIsDecimal(rest[..j]);
    NumericIsDecimal(rest[j + 1..]);
  }
}
