/**
 * The order of versions (src/management/shimSelect.ts): a total preorder that puts two versions apart as section 11 of
 * Semantic Versioning 2.0.0 does. A version is what the pattern's groups hold; the build metadata is not among them.
 */
module Semver {
  import opened Basics
  import opened Dots

  datatype Identifier = Numeric(n: nat) | Alphanumeric(text: string)

  datatype Version = Version(major: nat, minor: nat, patch: nat, prerelease: Option<string>) {
    function Core(): seq<nat> { [major, minor, patch] }
  }

  predicate AllDigits(s: string) {
    s != "" && forall i :: 0 <= i < |s| ==> '0' <= s[i] <= '9'
  }

  function Number(s: string): nat
    requires forall i :: 0 <= i < |s| ==> '0' <= s[i] <= '9'
  {
    if s == "" then 0 else 10 * Number(s[..|s| - 1]) + (s[|s| - 1] as int - '0' as int)
  }

  function IdentifierOf(part: string): Identifier {
    if AllDigits(part) then Numeric(Number(part)) else Alphanumeric(part)
  }

  function Identifiers(prerelease: Option<string>): seq<Identifier> {
    match prerelease
    case None => []
    case Some(value) => var parts := Split(value); seq(|parts|, i requires 0 <= i < |parts| => IdentifierOf(parts[i]))
  }

  // ---- orders ----

  ghost predicate TotalOrder<T(!new)>(compare: (T, T) -> int) {
    && (forall x, y :: -1 <= compare(x, y) <= 1 && compare(x, y) == -compare(y, x))
    && (forall x, y :: compare(x, y) == 0 <==> x == y)
    && (forall x, y, z :: compare(x, y) <= 0 && compare(y, z) <= 0 ==> compare(x, z) <= 0)
  }

  /** The first difference decides; a proper prefix is lower. */
  function Lexicographic<T>(compare: (T, T) -> int, a: seq<T>, b: seq<T>): int {
    if a == [] then (if b == [] then 0 else -1)
    else if b == [] then 1
    else if compare(a[0], b[0]) != 0 then compare(a[0], b[0])
    else Lexicographic(compare, a[1..], b[1..])
  }

  function CompareChar(x: char, y: char): int { if x < y then -1 else if x == y then 0 else 1 }

  function CompareText(x: string, y: string): int { Lexicographic(CompareChar, x, y) }

  function CompareIdentifier(x: Identifier, y: Identifier): int {
    match (x, y)
    case (Numeric(m), Numeric(n)) => if m < n then -1 else if m == n then 0 else 1
    case (Numeric(_), Alphanumeric(_)) => -1
    case (Alphanumeric(_), Numeric(_)) => 1
    case (Alphanumeric(s), Alphanumeric(t)) => CompareText(s, t)
  }

  function CompareNat(x: nat, y: nat): int { if x < y then -1 else if x == y then 0 else 1 }

  /** A version without a pre-release is higher than the same version with one. */
  function ComparePrerelease(a: seq<Identifier>, b: seq<Identifier>): int {
    if a == [] || b == [] then (if |a| == |b| then 0 else if a == [] then 1 else -1)
    else Lexicographic(CompareIdentifier, a, b)
  }

  function Compare(left: Version, right: Version): int {
    var core := Lexicographic(CompareNat, left.Core(), right.Core());
    if core != 0 then core else ComparePrerelease(Identifiers(left.prerelease), Identifiers(right.prerelease))
  }

  // ---- an order of elements is one of lists ----

  lemma {:induction false} LexicographicFlips<T(!new)>(compare: (T, T) -> int, a: seq<T>, b: seq<T>)
    requires TotalOrder(compare)
    ensures -1 <= Lexicographic(compare, a, b) <= 1
    ensures Lexicographic(compare, a, b) == -Lexicographic(compare, b, a)
    ensures Lexicographic(compare, a, b) == 0 <==> a == b
    decreases |a|
  {
    if a != [] && b != [] && compare(a[0], b[0]) == 0 {
      LexicographicFlips(compare, a[1..], b[1..]);
      assert a == [a[0]] + a[1..] && b == [b[0]] + b[1..];
    }
  }

  lemma {:induction false} LexicographicChains<T(!new)>(compare: (T, T) -> int, a: seq<T>, b: seq<T>, c: seq<T>)
    requires TotalOrder(compare) && Lexicographic(compare, a, b) <= 0 && Lexicographic(compare, b, c) <= 0
    ensures Lexicographic(compare, a, c) <= 0
    decreases |a|
  {
    if a != [] && b != [] && c != [] {
      assert compare(a[0], b[0]) <= 0 && compare(b[0], c[0]) <= 0;
      if compare(a[0], c[0]) == 0 {
        assert compare(c[0], a[0]) == 0 && compare(c[0], b[0]) <= 0;
        assert compare(a[0], b[0]) == 0 && compare(b[0], c[0]) == 0;
        LexicographicChains(compare, a[1..], b[1..], c[1..]);
      }
    }
  }

  lemma {:induction false} LexicographicIsOrder<T(!new)>(compare: (T, T) -> int)
    requires TotalOrder(compare)
    ensures forall a, b :: -1 <= Lexicographic(compare, a, b) <= 1 && Lexicographic(compare, a, b) == -Lexicographic(compare, b, a)
    ensures forall a, b :: Lexicographic(compare, a, b) == 0 <==> a == b
    ensures forall a, b, c :: Lexicographic(compare, a, b) <= 0 && Lexicographic(compare, b, c) <= 0 ==> Lexicographic(compare, a, c) <= 0
  {
    hide Lexicographic, TotalOrder;
    forall a, b ensures -1 <= Lexicographic(compare, a, b) <= 1 && Lexicographic(compare, a, b) == -Lexicographic(compare, b, a)
      ensures Lexicographic(compare, a, b) == 0 <==> a == b
    {
      LexicographicFlips(compare, a, b);
    }
    forall a, b, c | Lexicographic(compare, a, b) <= 0 && Lexicographic(compare, b, c) <= 0 ensures Lexicographic(compare, a, c) <= 0 {
      LexicographicChains(compare, a, b, c);
    }
  }

  lemma {:induction false} IdentifierOrder()
    ensures TotalOrder(CompareIdentifier)
  {
    hide Lexicographic;
    assert TotalOrder(CompareChar);
    LexicographicIsOrder(CompareChar);
  }

  lemma {:induction false} PrereleaseOrder()
    ensures TotalOrder(ComparePrerelease)
  {
    hide Lexicographic, CompareIdentifier;
    IdentifierOrder();
    LexicographicIsOrder(CompareIdentifier);
  }

  /**
   * The order of versions is a total preorder over all versions, lists of numeric and alphanumeric identifiers mixed:
   * antisymmetric, transitive, strict where either step is; two versions are level exactly when their numbers and
   * identifiers are the same.
   */
  lemma {:induction false} VersionOrder(a: Version, b: Version, c: Version)
    ensures -1 <= Compare(a, b) <= 1 && Compare(a, b) == -Compare(b, a)
    ensures Compare(a, b) == 0 <==> a.Core() == b.Core() && Identifiers(a.prerelease) == Identifiers(b.prerelease)
    ensures Compare(a, b) <= 0 && Compare(b, c) <= 0 ==> Compare(a, c) <= 0
    ensures Compare(a, b) <= 0 && Compare(b, c) <= 0 && Compare(a, c) == 0 ==> Compare(a, b) == 0 && Compare(b, c) == 0
  {
    hide Lexicographic, ComparePrerelease, Identifiers;
    assert TotalOrder(CompareNat);
    LexicographicIsOrder(CompareNat);
    PrereleaseOrder();
  }

  // ---- section 11 ----

  /** The texts differ first where the character of the lower one is lower, or the lower one ends. */
  ghost predicate TextLower(s: string, t: string) {
    exists k :: 0 <= k <= |s| && k <= |t| && s[..k] == t[..k] && k < |t| && (k == |s| || s[k] < t[k])
  }

  /** Section 11.4: numeric identifiers numerically, others by character, numeric below others. */
  ghost predicate IdentifierLower(x: Identifier, y: Identifier) {
    || (x.Numeric? && y.Numeric? && x.n < y.n)
    || (x.Numeric? && y.Alphanumeric?)
    || (x.Alphanumeric? && y.Alphanumeric? && TextLower(x.text, y.text))
  }

  /** Section 11.4: the first difference from left to right, else the larger set of fields is higher. */
  ghost predicate FieldsLower(a: seq<Identifier>, b: seq<Identifier>) {
    exists k :: 0 <= k <= |a| && k <= |b| && a[..k] == b[..k] && k < |b| && (k == |a| || IdentifierLower(a[k], b[k]))
  }

  /** Section 11.2 and 11.3. */
  ghost predicate VersionLower(a: Version, b: Version) {
    || a.major < b.major
    || (a.major == b.major && a.minor < b.minor)
    || (a.major == b.major && a.minor == b.minor && a.patch < b.patch)
    || (a.Core() == b.Core() && (if b.prerelease.None? then a.prerelease.Some?
        else a.prerelease.Some? && FieldsLower(Identifiers(a.prerelease), Identifiers(b.prerelease))))
  }

  lemma {:induction false} FirstDifference<T(!new)>(compare: (T, T) -> int, a: seq<T>, b: seq<T>)
    requires TotalOrder(compare)
    ensures Lexicographic(compare, a, b) < 0 <==>
            exists k :: 0 <= k <= |a| && k <= |b| && a[..k] == b[..k] && k < |b| && (k == |a| || compare(a[k], b[k]) < 0)
    decreases |a|
  {
    if b == [] || a == [] {
      if b != [] { assert a[..0] == b[..0]; }
    } else {
      FirstDifference(compare, a[1..], b[1..]);
      if Lexicographic(compare, a, b) < 0 { DifferenceOn(compare, a, b); }
      forall k | 0 <= k <= |a| && k <= |b| && a[..k] == b[..k] && k < |b| && (k == |a| || compare(a[k], b[k]) < 0)
        ensures Lexicographic(compare, a, b) < 0
      {
        DifferenceBack(compare, a, b, k);
      }
    }
  }

  lemma {:induction false} DifferenceOn<T(!new)>(compare: (T, T) -> int, a: seq<T>, b: seq<T>)
    requires TotalOrder(compare) && a != [] && b != [] && compare(a[0], b[0]) <= 0
    requires a[0] == b[0] ==>
               exists k :: 0 <= k <= |a| - 1 && k <= |b| - 1 && a[1..][..k] == b[1..][..k] && k < |b| - 1 && (k == |a| - 1 || compare(a[1..][k], b[1..][k]) < 0)
    ensures exists k :: 0 <= k <= |a| && k <= |b| && a[..k] == b[..k] && k < |b| && (k == |a| || compare(a[k], b[k]) < 0)
  {
    if a[0] == b[0] {
      var k :| 0 <= k <= |a| - 1 && k <= |b| - 1 && a[1..][..k] == b[1..][..k] && k < |b| - 1 && (k == |a| - 1 || compare(a[1..][k], b[1..][k]) < 0);
      assert a[..k + 1] == [a[0]] + a[1..][..k] && b[..k + 1] == [b[0]] + b[1..][..k];
    } else {
      assert a[..0] == b[..0] && compare(a[0], b[0]) < 0;
    }
  }

  lemma {:induction false} DifferenceBack<T(!new)>(compare: (T, T) -> int, a: seq<T>, b: seq<T>, k: nat)
    requires TotalOrder(compare) && a != [] && k <= |a| && k < |b| && a[..k] == b[..k] && (k == |a| || compare(a[k], b[k]) < 0)
    requires (exists j :: 0 <= j <= |a| - 1 && j <= |b| - 1 && a[1..][..j] == b[1..][..j] && j < |b| - 1 && (j == |a| - 1 || compare(a[1..][j], b[1..][j]) < 0)) ==>
               Lexicographic(compare, a[1..], b[1..]) < 0
    ensures Lexicographic(compare, a, b) < 0
  {
    if k > 0 {
      assert a[..k][0] == b[..k][0];
      assert a[1..][..k - 1] == a[..k][1..] && b[1..][..k - 1] == b[..k][1..];
      hide TotalOrder;
      assert a[1..][..k - 1] == b[1..][..k - 1] && (k - 1 == |a| - 1 || compare(a[1..][k - 1], b[1..][k - 1]) < 0);
    }
  }

  lemma {:induction false} IdentifierIsLower(x: Identifier, y: Identifier)
    ensures CompareIdentifier(x, y) < 0 <==> IdentifierLower(x, y)
  {
    hide Lexicographic;
    assert TotalOrder(CompareChar);
    if x.Alphanumeric? && y.Alphanumeric? { FirstDifference(CompareChar, x.text, y.text); }
  }

  lemma {:induction false} FieldsAreLower(a: seq<Identifier>, b: seq<Identifier>)
    ensures Lexicographic(CompareIdentifier, a, b) < 0 <==> FieldsLower(a, b)
  {
    hide Lexicographic, CompareIdentifier, IdentifierLower;
    IdentifierOrder();
    forall x, y ensures CompareIdentifier(x, y) < 0 <==> IdentifierLower(x, y) { IdentifierIsLower(x, y); }
    FirstDifference(CompareIdentifier, a, b);
  }

  lemma {:induction false} CoreLower(a: Version, b: Version)
    ensures Lexicographic(CompareNat, a.Core(), b.Core())
         == if a.major != b.major then CompareNat(a.major, b.major) else if a.minor != b.minor then CompareNat(a.minor, b.minor)
            else CompareNat(a.patch, b.patch)
  {
    var x, y := a.Core(), b.Core();
    assert x[1..] == [a.minor, a.patch] && y[1..] == [b.minor, b.patch];
    assert Lexicographic(CompareNat, x, y) == if a.major != b.major then CompareNat(a.major, b.major) else Lexicographic(CompareNat, x[1..], y[1..]);
    assert [a.minor, a.patch][1..] == [a.patch] && [b.minor, b.patch][1..] == [b.patch];
    assert Lexicographic(CompareNat, x[1..], y[1..]) == if a.minor != b.minor then CompareNat(a.minor, b.minor) else Lexicographic(CompareNat, [a.patch], [b.patch]);
    assert [a.patch][1..] == [] && [b.patch][1..] == [];
    assert Lexicographic(CompareNat, [a.patch], [b.patch]) == CompareNat(a.patch, b.patch);
  }

  /** A version compares lower exactly when section 11 puts it lower. */
  lemma {:induction false} ComparesAsSection11(a: Version, b: Version)
    ensures Compare(a, b) < 0 <==> VersionLower(a, b)
  {
    hide Lexicographic, FieldsLower, Split, IdentifierOf;
    CoreLower(a, b);
    assert a.Core() == b.Core() <==> a.major == b.major && a.minor == b.minor && a.patch == b.patch by {
      assert a.Core()[0] == a.major && a.Core()[1] == a.minor && a.Core()[2] == a.patch;
      assert b.Core()[0] == b.major && b.Core()[1] == b.minor && b.Core()[2] == b.patch;
    }
    assert a.prerelease.None? <==> Identifiers(a.prerelease) == [];
    assert b.prerelease.None? <==> Identifiers(b.prerelease) == [];
    var x, y := Identifiers(a.prerelease), Identifiers(b.prerelease);
    FieldsAreLower(x, y);
  }

  // ---- the loops ----

  method ComparePrereleases(aPre: seq<Identifier>, bPre: seq<Identifier>) returns (r: int)
    ensures r == ComparePrerelease(aPre, bPre)
  {
    if |aPre| == 0 || |bPre| == 0 { return if |aPre| == |bPre| then 0 else if |aPre| == 0 then 1 else -1; }
    var index := 0;
    while index < Max(|aPre|, |bPre|)
      invariant 0 <= index <= |aPre| && index <= |bPre|
      invariant Lexicographic(CompareIdentifier, aPre, bPre) == Lexicographic(CompareIdentifier, aPre[index..], bPre[index..])
    {
      if index >= |aPre| || index >= |bPre| { return if index >= |aPre| then -1 else 1; }
      var x, y := aPre[index], bPre[index];
      IdentifierOrder();
      assert aPre[index..][1..] == aPre[index + 1..] && bPre[index..][1..] == bPre[index + 1..];
      index := index + 1;
      if x == y { continue; }
      if x.Numeric? && y.Alphanumeric? { return -1; }
      if x.Alphanumeric? && y.Numeric? { return 1; }
      return if CompareIdentifier(x, y) < 0 then -1 else 1;
    }
    return 0;
  }

  method CompareSemver(left: Version, right: Version) returns (r: int)
    ensures r == Compare(left, right)
  {
    var a, b := left.Core(), right.Core();
    var index := 0;
    while index < 3
      invariant 0 <= index <= 3
      invariant Lexicographic(CompareNat, a, b) == Lexicographic(CompareNat, a[index..], b[index..])
    {
      var delta := a[index] as int - b[index] as int;
      if delta != 0 { return if delta < 0 then -1 else 1; }
      assert a[index..][1..] == a[index + 1..] && b[index..][1..] == b[index + 1..];
      index := index + 1;
    }
    r := ComparePrereleases(Identifiers(left.prerelease), Identifiers(right.prerelease));
  }

  // ---- which identifiers are numbers ----

  /** A numeral without leading zeros, as a pre-release's numeric identifiers are. */
  predicate Numeral(s: string) {
    s != "" && (forall i :: 0 <= i < |s| ==> s[i] in "0123456789") && (|s| > 1 ==> s[0] != '0')
  }

  function TenTo(n: nat): (p: nat)
    ensures p >= 1
  {
    if n == 0 then 1 else 10 * TenTo(n - 1)
  }

  lemma {:induction false} DigitsAre(s: string)
    ensures AllDigits(s) <==> s != "" && forall i :: 0 <= i < |s| ==> s[i] in "0123456789"
  {
    forall i | 0 <= i < |s| ensures '0' <= s[i] <= '9' <==> s[i] in "0123456789" { DigitIs(s[i]); }
  }

  lemma {:induction false} DigitIs(c: char)
    ensures '0' <= c <= '9' <==> c in "0123456789"
    ensures '0' <= c <= '9' ==> "0123456789"[c as int - '0' as int] == c
  {
    var digits := "0123456789";
    assert forall i :: 0 <= i < 10 ==> digits[i] as int == '0' as int + i;
    if '0' <= c <= '9' { assert digits[c as int - '0' as int] == c; }
  }

  /** A number of so many digits is below ten to the power of them, and not below one digit less if the first is no zero. */
  lemma {:induction false} NumberBounds(s: string)
    requires s != "" && forall i :: 0 <= i < |s| ==> '0' <= s[i] <= '9'
    ensures Number(s) < TenTo(|s|)
    ensures s[0] != '0' ==> Number(s) >= TenTo(|s| - 1)
    decreases |s|
  {
    if |s| == 1 {
      assert s[..0] == "" && Number("") == 0 && TenTo(1) == 10 * TenTo(0);
    } else {
      NumberBounds(s[..|s| - 1]);
    }
  }

  lemma {:induction false} TenToGrows(m: nat, n: nat)
    requires m <= n
    ensures TenTo(m) <= TenTo(n)
    decreases n
  {
    if m < n { TenToGrows(m, n - 1); }
  }

  /** Numbers of as many digits compare as their texts. */
  lemma {:induction false} SameLength(s: string, t: string)
    requires |s| == |t| && (forall i :: 0 <= i < |s| ==> '0' <= s[i] <= '9') && forall i :: 0 <= i < |t| ==> '0' <= t[i] <= '9'
    ensures CompareNat(Number(s), Number(t)) == CompareText(s, t)
    decreases |s|
  {
    if s != "" {
      var n := |s| - 1;
      SameLength(s[..n], t[..n]);
      TextLast(s[..n], t[..n], s[n], t[n]);
      assert s == s[..n] + [s[n]] && t == t[..n] + [t[n]];
    }
  }

  lemma {:induction false} TextLast(s: string, t: string, c: char, d: char)
    requires |s| == |t|
    ensures CompareText(s + [c], t + [d]) == if CompareText(s, t) != 0 then CompareText(s, t) else CompareChar(c, d)
    decreases |s|
  {
    if s == "" {
      assert s + [c] == [c] && t + [d] == [d] && [c][1..] == "" && [d][1..] == "";
    } else {
      TextLast(s[1..], t[1..], c, d);
      assert (s + [c])[1..] == s[1..] + [c] && (t + [d])[1..] == t[1..] + [d];
    }
  }

  /**
   * Numeric identifiers compare by the numbers they stand for: a longer numeral is higher, and of the same length the first
   * different digit decides. Any other identifier is higher than a numeric one, and compares as text.
   */
  lemma {:induction false} IdentifiersCompare(s: string, t: string)
    ensures Numeral(s) && Numeral(t) ==>
              CompareIdentifier(IdentifierOf(s), IdentifierOf(t)) == if |s| < |t| then -1 else if |s| > |t| then 1 else CompareText(s, t)
    ensures Numeral(s) && (exists i :: 0 <= i < |t| && t[i] !in "0123456789") ==>
              CompareIdentifier(IdentifierOf(s), IdentifierOf(t)) == -1 && CompareIdentifier(IdentifierOf(t), IdentifierOf(s)) == 1
    ensures (exists i :: 0 <= i < |s| && s[i] !in "0123456789") && (exists i :: 0 <= i < |t| && t[i] !in "0123456789") ==>
              CompareIdentifier(IdentifierOf(s), IdentifierOf(t)) == CompareText(s, t)
  {
    DigitsAre(s);
    DigitsAre(t);
    if Numeral(s) && Numeral(t) { NumeralsCompare(s, t); }
  }

  lemma {:induction false} NumeralsCompare(s: string, t: string)
    requires Numeral(s) && Numeral(t) && AllDigits(s) && AllDigits(t)
    ensures CompareNat(Number(s), Number(t)) == if |s| < |t| then -1 else if |s| > |t| then 1 else CompareText(s, t)
  {
    NumberBounds(s);
    NumberBounds(t);
    if |s| == |t| { SameLength(s, t); }
    else if |s| < |t| { TenToGrows(|s|, |t| - 1); }
    else { TenToGrows(|t|, |s| - 1); }
  }
}
