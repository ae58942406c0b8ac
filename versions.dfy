/** Version numbers of the release cadence: "major.minor" pairs, the rule that
    steps from one version to the next, their text form and the versions for
    which no events are projected. */
module Versions {

  /** A version "major.minor". The cadence only ever uses minors 0..8. */
  datatype Version = Version(major: nat, minor: nat)

  /** The versions the numbering rule produces: minor never passes 8. */
  predicate WellFormed(v: Version) {
    v.minor <= 8
  }

  /** Strictly later in the (major, minor) order. */
  predicate Later(v: Version, w: Version) {
    w.major > v.major || (w.major == v.major && w.minor > v.minor)
  }

  /** Position of a well-formed version in the sequence 0.0, 0.1, ..., 0.8, 1.0, ... */
  function Rank(v: Version): nat {
    9 * v.major + v.minor
  }

  /** The numbering rule: X.8 is followed by (X+1).0, any other X.Y by X.(Y+1). */
  function Next(v: Version): (r: Version)
    ensures Later(v, r)
    ensures WellFormed(v) ==> WellFormed(r) && Rank(r) == Rank(v) + 1
  {
    if v.minor == 8 then Version(v.major + 1, 0) else Version(v.major, v.minor + 1)
  }

  /** The version reached from v after k applications of the numbering rule. */
  function NextN(v: Version, k: nat): Version {
    if k == 0 then v else Next(NextN(v, k - 1))
  }

  /** Stepping k times from a well-formed version lands exactly k places later
      in the cadence and never leaves minors 0..8. */
  lemma {:induction false} NextNRank(v: Version, k: nat)
    requires WellFormed(v)
    ensures WellFormed(NextN(v, k)) && Rank(NextN(v, k)) == Rank(v) + k
  {
    if k > 0 {
      NextNRank(v, k - 1);
    }
  }

  /** Each step is strictly later than every earlier step. */
  lemma {:induction false} NextNIncreasing(v: Version, j: nat, k: nat)
    requires j < k
    ensures Later(NextN(v, j), NextN(v, k))
  {
    if j < k - 1 {
      NextNIncreasing(v, j, k - 1);
    }
  }

  // ---------------------------------------------------------------------------
  // Text form: `${major}.${minor}`

  function DigitChar(d: nat): char
    requires d < 10
  {
    (d + '0' as int) as char
  }

  predicate IsDigit(c: char) {
    '0' <= c <= '9'
  }

  /** Decimal text of a natural number, as a JavaScript template literal
      prints numbers below 10^21. */
  function NatText(n: nat): string {
    if n < 10 then [DigitChar(n)] else NatText(n / 10) + [DigitChar(n % 10)]
  }

  /** The label the source builds for a version. */
  function Label(v: Version): string {
    NatText(v.major) + "." + NatText(v.minor)
  }

  lemma {:induction false} NatTextDigits(n: nat)
    ensures |NatText(n)| >= 1
    ensures |NatText(n)| == 1 <==> n < 10
    ensures forall i :: 0 <= i < |NatText(n)| ==> IsDigit(NatText(n)[i])
  {
    if n >= 10 {
      NatTextDigits(n / 10);
    }
  }

  /** Different numbers print differently. */
  lemma {:induction false} NatTextInjective(m: nat, n: nat)
    requires NatText(m) == NatText(n)
    ensures m == n
  {
    NatTextDigits(m);
    NatTextDigits(n);
    if m >= 10 && n >= 10 {
      var a, b := NatText(m), NatText(n);
      assert a[..|a| - 1] == NatText(m / 10);
      assert b[..|b| - 1] == NatText(n / 10);
      NatTextInjective(m / 10, n / 10);
      assert DigitChar(m % 10) == a[|a| - 1] == b[|b| - 1] == DigitChar(n % 10);
    }
  }

  /** Different versions have different labels, so comparing labels (as the
      source does) is comparing versions. */
  lemma LabelInjective(v: Version, w: Version)
    requires Label(v) == Label(w)
    ensures v == w
  {
    var a, b := NatText(v.major), NatText(w.major);
    var c, d := NatText(v.minor), NatText(w.minor);
    NatTextDigits(v.major);
    NatTextDigits(w.major);
    // The first '.' sits right after the major's digits in both labels.
    assert Label(v)[|a|] == '.' && Label(w)[|b|] == '.';
    assert forall i :: 0 <= i < |a| ==> Label(v)[i] == a[i];
    assert forall i :: 0 <= i < |b| ==> Label(w)[i] == b[i];
    assert |a| == |b|;
    assert a == Label(v)[..|a|] == Label(w)[..|b|] == b;
    assert c == Label(v)[|a| + 1..] == Label(w)[|b| + 1..] == d;
    NatTextInjective(v.major, w.major);
    NatTextInjective(v.minor, w.minor);
  }

  // ---------------------------------------------------------------------------
  // Versions the cadence never had: no events are generated for them.

  const SkippedLabels: seq<string> := ["1.7", "1.8", "2.8"]

  predicate IsSkipped(text: string) {
    text in SkippedLabels
  }

  /** The label test picks out exactly the versions 1.7, 1.8 and 2.8. */
  lemma SkippedExactly(v: Version)
    ensures IsSkipped(Label(v)) <==> v == Version(1, 7) || v == Version(1, 8) || v == Version(2, 8)
  {
    assert Label(Version(1, 7)) == "1.7";
    assert Label(Version(1, 8)) == "1.8";
    assert Label(Version(2, 8)) == "2.8";
    if Label(v) == "1.7" {
      LabelInjective(v, Version(1, 7));
    } else if Label(v) == "1.8" {
      LabelInjective(v, Version(1, 8));
    } else if Label(v) == "2.8" {
      LabelInjective(v, Version(2, 8));
    }
  }

  /** The label "3.7" belongs to version 3.7 and to no other. */
  lemma LabelIsThreeSeven(v: Version)
    ensures Label(v) == "3.7" <==> v == Version(3, 7)
  {
    assert Label(Version(3, 7)) == "3.7";
    if Label(v) == "3.7" {
      LabelInjective(v, Version(3, 7));
    }
  }
}
