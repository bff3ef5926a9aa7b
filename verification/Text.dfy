/** Text as the identifiers use it: Python's order on `str`, the listing that
    `sorted` gives, and zero-padded decimal counters. */
module Text {
  datatype Option<+T> = None | Some(value: T)

  datatype Result<+T, +E> = Ok(value: T) | Err(error: E)

  // ---------------------------------------------------------------- order

  /** `a < b` on `str`: the first differing code point decides. */
  predicate Before(a: string, b: string) {
    b != [] && (a == [] || a[0] < b[0] || (a[0] == b[0] && Before(a[1..], b[1..])))
  }

  lemma {:induction false} BeforeIsStrict(a: string, b: string)
    ensures a == b || Before(a, b) || Before(b, a)
    ensures !(Before(a, b) && Before(b, a))
    ensures !Before(a, a)
  {
    if a == [] || b == [] {
      if a != [] { BeforeIsStrict(a[1..], a[1..]); }
    } else {
      BeforeIsStrict(a[1..], b[1..]);
      BeforeIsStrict(a[1..], a[1..]);
      if a[0] == b[0] && a[1..] == b[1..] {
        assert a == [a[0]] + a[1..] && b == [b[0]] + b[1..];
      }
    }
  }

  lemma {:induction false} BeforeIsTransitive(a: string, b: string, c: string)
    requires Before(a, b) && Before(b, c)
    ensures Before(a, c)
  {
    if a != [] && a[0] == b[0] && b[0] == c[0] {
      BeforeIsTransitive(a[1..], b[1..], c[1..]);
    }
  }

  /** The first `k` characters agree, and then the first text ends or has the lower one. */
  predicate LowerAt(a: string, b: string, k: nat) {
    k <= |a| && k < |b| && a[..k] == b[..k] && (k == |a| || a[k] < b[k])
  }

  /** Two sequences agree up to a place exactly when their heads and their tails do. */
  lemma AgreeTo<T>(a: seq<T>, b: seq<T>, k: nat)
    requires 0 < k <= |a| && k <= |b|
    ensures a[..k] == b[..k] <==> a[0] == b[0] && a[1..][..k - 1] == b[1..][..k - 1]
  {
    assert a[..k] == [a[0]] + a[1..][..k - 1] && b[..k] == [b[0]] + b[1..][..k - 1];
    if a[..k] == b[..k] {
      assert a[..k][0] == a[0] && b[..k][0] == b[0];
      assert a[1..][..k - 1] == a[..k][1..] && b[1..][..k - 1] == b[..k][1..];
    }
  }

  /** The order, by the place that decides. */
  lemma {:induction false} BeforeExactly(a: string, b: string)
    ensures Before(a, b) <==> exists k: nat :: LowerAt(a, b, k)
  {
    if a != [] && b != [] {
      BeforeExactly(a[1..], b[1..]);
      forall k: nat | 0 < k <= |a| && k < |b| ensures LowerAt(a, b, k) <==> a[0] == b[0] && LowerAt(a[1..], b[1..], k - 1) { AgreeTo(a, b, k); }
      assert LowerAt(a, b, 0) <==> a[0] < b[0];
      if j: nat :| LowerAt(a[1..], b[1..], j) { assert a[0] == b[0] ==> LowerAt(a, b, j + 1); }
    } else {
      assert LowerAt(a, b, 0) <==> b != [];
    }
  }

  /** `a < b` on tuples of `str`. */
  predicate PathBefore(a: seq<string>, b: seq<string>) {
    b != [] && (a == [] || Before(a[0], b[0]) || (a[0] == b[0] && PathBefore(a[1..], b[1..])))
  }

  predicate LowerPathAt(a: seq<string>, b: seq<string>, k: nat) {
    k <= |a| && k < |b| && a[..k] == b[..k] && (k == |a| || Before(a[k], b[k]))
  }

  lemma {:induction false} PathBeforeExactly(a: seq<string>, b: seq<string>)
    ensures PathBefore(a, b) <==> exists k: nat :: LowerPathAt(a, b, k)
  {
    if a != [] && b != [] {
      PathBeforeExactly(a[1..], b[1..]);
      forall k: nat | 0 < k <= |a| && k < |b| ensures LowerPathAt(a, b, k) <==> a[0] == b[0] && LowerPathAt(a[1..], b[1..], k - 1) { AgreeTo(a, b, k); }
      assert LowerPathAt(a, b, 0) <==> Before(a[0], b[0]);
      if j: nat :| LowerPathAt(a[1..], b[1..], j) { assert a[0] == b[0] ==> LowerPathAt(a, b, j + 1); }
    } else {
      assert LowerPathAt(a, b, 0) <==> b != [];
    }
  }

  lemma {:induction false} PathBeforeIsStrict(a: seq<string>, b: seq<string>)
    ensures a == b || PathBefore(a, b) || PathBefore(b, a)
    ensures !(PathBefore(a, b) && PathBefore(b, a))
  {
    if a != [] && b != [] {
      BeforeIsStrict(a[0], b[0]);
      PathBeforeIsStrict(a[1..], b[1..]);
      if a[0] == b[0] && a[1..] == b[1..] {
        assert a == [a[0]] + a[1..] && b == [b[0]] + b[1..];
      }
    }
  }

  lemma {:induction false} PathBeforeIsTransitive(a: seq<string>, b: seq<string>, c: seq<string>)
    requires PathBefore(a, b) && PathBefore(b, c)
    ensures PathBefore(a, c)
  {
    if a != [] {
      if Before(a[0], b[0]) && Before(b[0], c[0]) {
        BeforeIsTransitive(a[0], b[0], c[0]);
      } else if a[0] == b[0] && b[0] == c[0] && !Before(a[0], b[0]) && !Before(b[0], c[0]) {
        PathBeforeIsTransitive(a[1..], b[1..], c[1..]);
      } else {
        BeforeIsStrict(a[0], b[0]);
        BeforeIsStrict(b[0], c[0]);
      }
    }
  }

  // -------------------------------------------------------------- sorting

  ghost predicate Ascending(s: seq<string>) {
    forall i, j :: 0 <= i < j < |s| ==> Before(s[i], s[j])
  }

  function Members(s: seq<string>): set<string> {
    set x | x in s
  }

  /** An ascending listing is determined by what it lists. */
  lemma {:induction false} AscendingIsUnique(a: seq<string>, b: seq<string>)
    requires Ascending(a) && Ascending(b) && Members(a) == Members(b)
    ensures a == b
  {
    assert a != [] ==> a[0] in Members(a);
    assert b != [] ==> b[0] in Members(b);
    if a != [] && b != [] {
      BeforeIsStrict(a[0], b[0]);
      forall x | x in Members(a[1..]) ensures x in Members(b[1..]) {
        assert x in Members(a);
        var i :| 0 <= i < |a[1..]| && a[1..][i] == x;
        assert Before(a[0], a[i + 1]);
        BeforeIsStrict(a[0], x);
      }
      forall x | x in Members(b[1..]) ensures x in Members(a[1..]) {
        assert x in Members(b);
        var i :| 0 <= i < |b[1..]| && b[1..][i] == x;
        assert Before(b[0], b[i + 1]);
        BeforeIsStrict(b[0], x);
      }
      AscendingIsUnique(a[1..], b[1..]);
    }
  }

  lemma SubsetSize(a: set<string>, b: set<string>)
    requires a <= b
    ensures |a| <= |b| && (a < b ==> |a| < |b|)
  {
    assert b == a + (b - a);
    assert a < b ==> b - a != {};
  }

  ghost predicate IsLeast(s: set<string>, m: string) {
    m in s && forall x :: x in s && x != m ==> Before(m, x)
  }

  lemma {:induction false} LeastExists(s: set<string>) returns (m: string)
    requires s != {}
    ensures IsLeast(s, m)
  {
    var x :| x in s;
    if s == {x} {
      m := x;
    } else {
      var rest := s - {x};
      assert s == rest + {x};
      var n := LeastExists(rest);
      BeforeIsStrict(x, n);
      m := if Before(x, n) then x else n;
      forall y | y in s && y != m ensures Before(m, y) {
        if y != x && y != n {
          assert y in rest;
          if m == x { BeforeIsTransitive(x, n, y); }
        }
      }
    }
  }

  /** `min(s)` on `str`. */
  ghost function Least(s: set<string>): (m: string)
    requires s != {}
    ensures IsLeast(s, m)
  {
    assert exists m :: IsLeast(s, m) by { var w := LeastExists(s); }
    var m :| IsLeast(s, m);
    m
  }

  /** `sorted(s)`. */
  ghost function Sorted(s: set<string>): (r: seq<string>)
    ensures Ascending(r) && Members(r) == s
  {
    if s == {} then []
    else
      var m := Least(s);
      var rest := Sorted(s - {m});
      assert forall x :: x in rest <==> x in s - {m} by {
        assert forall x :: x in Members(rest) <==> x in rest;
      }
      [m] + rest
  }

  lemma SortedPopsLeast(s: set<string>)
    ensures s == {} ==> Sorted(s) == []
    ensures s != {} ==> Sorted(s) == [Least(s)] + Sorted(s - {Least(s)})
  {}

  /** `sorted` on a set. */
  method Listing(s: set<string>) returns (r: seq<string>)
    ensures r == Sorted(s)
  {
    hide Sorted, Least;
    r := [];
    var rest := s;
    while rest != {}
      invariant rest <= s
      invariant r + Sorted(rest) == Sorted(s)
      decreases rest
    {
      var m := Minimum(rest);
      SortedPopsLeast(rest);
      assert r + ([m] + Sorted(rest - {m})) == (r + [m]) + Sorted(rest - {m});
      r := r + [m];
      rest := rest - {m};
    }
    SortedPopsLeast(rest);
  }

  /** `min` on a set. */
  method Minimum(s: set<string>) returns (m: string)
    requires s != {}
    ensures m == Least(s)
  {
    m :| m in s;
    var rest := s - {m};
    while rest != {}
      invariant rest <= s && m in s - rest
      invariant forall x :: x in s - rest && x != m ==> Before(m, x)
      decreases rest
    {
      var x :| x in rest;
      BeforeIsStrict(x, m);
      if Before(x, m) {
        forall y | y in s - rest && y != m ensures Before(x, y) {
          BeforeIsTransitive(x, m, y);
        }
        m := x;
      }
      rest := rest - {x};
    }
    BeforeIsStrict(m, Least(s));
  }

  // ------------------------------------------------------------- counters

  function Digit(d: nat): char
    requires d < 10
  {
    '0' + d as char
  }

  predicate IsDigit(c: char) { '0' <= c <= '9' }

  function DigitValue(c: char): (d: nat)
    requires IsDigit(c)
  {
    c as nat - '0' as nat
  }

  /** `str.isdigit`, on ASCII text. */
  predicate IsDigits(s: string) { s != [] && forall i :: 0 <= i < |s| ==> IsDigit(s[i]) }

  /** `str(n)`. */
  function Decimal(n: nat): string {
    if n < 10 then [Digit(n)] else Decimal(n / 10) + [Digit(n % 10)]
  }

  /** `int(s)` on a run of digits. */
  function ValueOf(s: string): nat
    requires forall i :: 0 <= i < |s| ==> IsDigit(s[i])
  {
    if s == [] then 0 else 10 * ValueOf(s[..|s| - 1]) + DigitValue(s[|s| - 1])
  }

  /** `f"{n:04d}"`. */
  function Pad4(n: nat): string {
    Zeros(4 - |Decimal(n)|) + Decimal(n)
  }

  function Zeros(n: int): string {
    if n <= 0 then [] else Zeros(n - 1) + ['0']
  }

  lemma {:induction false} DecimalRoundTrip(n: nat)
    ensures IsDigits(Decimal(n)) && ValueOf(Decimal(n)) == n
  {
    if n >= 10 {
      DecimalRoundTrip(n / 10);
      assert Decimal(n)[..|Decimal(n)| - 1] == Decimal(n / 10);
    }
  }

  lemma {:induction false} ZerosAreDigits(n: int)
    ensures forall i :: 0 <= i < |Zeros(n)| ==> Zeros(n)[i] == '0'
  {
    if n > 0 { ZerosAreDigits(n - 1); }
  }

  lemma {:induction false} LeadingZeros(z: string, s: string)
    requires forall i :: 0 <= i < |z| ==> z[i] == '0'
    requires forall i :: 0 <= i < |s| ==> IsDigit(s[i])
    ensures ValueOf(z + s) == ValueOf(s)
  {
    if s != [] {
      LeadingZeros(z, s[..|s| - 1]);
      assert (z + s)[..|z + s| - 1] == z + s[..|s| - 1];
    } else if z != [] {
      assert z + s == z;
      LeadingZeros(z[..|z| - 1], []);
      assert z[..|z| - 1] + [] == z[..|z| - 1];
    }
  }

  /** A counter is its decimal digits, which do not start with a zero, with zeros before
      them up to four digits. */
  lemma PaddedInPlainTerms(n: nat)
    ensures var d := Decimal(n);
            && IsDigits(d) && ValueOf(d) == n && (d[0] == '0' ==> n == 0 && |d| == 1)
            && |Pad4(n)| == (if |d| < 4 then 4 else |d|)
            && Pad4(n)[|Pad4(n)| - |d|..] == d && forall i :: 0 <= i < |Pad4(n)| - |d| ==> Pad4(n)[i] == '0'
  {
    DecimalRoundTrip(n);
    ZerosAreDigits(4 - |Decimal(n)|);
    ZerosCount(4 - |Decimal(n)|);
    NoLeadingZero(n);
  }

  lemma {:induction false} ZerosCount(n: int)
    ensures |Zeros(n)| == if n <= 0 then 0 else n
  {
    if n > 0 { ZerosCount(n - 1); }
  }

  lemma {:induction false} NoLeadingZero(n: nat)
    ensures Decimal(n) != [] && (Decimal(n)[0] == '0' ==> n == 0)
    ensures n == 0 ==> |Decimal(n)| == 1
  {
    if n >= 10 { NoLeadingZero(n / 10); }
  }

  /** A padded counter reads back as the counter. */
  lemma PaddedRoundTrip(n: nat)
    ensures IsDigits(Pad4(n)) && ValueOf(Pad4(n)) == n
  {
    DecimalRoundTrip(n);
    ZerosAreDigits(4 - |Decimal(n)|);
    LeadingZeros(Zeros(4 - |Decimal(n)|), Decimal(n));
  }
}
