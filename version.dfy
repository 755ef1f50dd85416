/**
 * Version parsing and ordering (`parseVersion` and `isNewer`): a version is
 * three numeric segments separated by dots, and "newer" is strict
 * lexicographic order on (major, minor, patch).
 */
module VersionCompare {
  import opened Wrappers
  import opened Text

  /** The triple `parseVersion` returns. JavaScript numbers; here integers. */
  datatype Version = Version(major: int, minor: int, patch: int)

  /**
   * `Number(segment)` for the segments the model admits: surrounding white
   * space is ignored, an empty or blank segment is 0, and otherwise an
   * optional sign followed by decimal digits gives its integer value. Every
   * other segment is NaN (`None`).
   */
  function SegmentValue(segment: string): (r: Option<int>)
    ensures Trim(segment) == [] ==> r == Some(0)
    ensures AllDigits(Trim(segment)) ==> r == Some(DecimalValue(Trim(segment)))
    ensures r.Some? && Trim(segment) != [] ==> IsDigit(Trim(segment)[|Trim(segment)| - 1])
    ensures r.Some? && r.value < 0 ==> Trim(segment)[0] == '-'
    ensures r.Some? && Trim(segment) != [] ==>
      AllDigits(Trim(segment)) || (|Trim(segment)| > 1 && Trim(segment)[0] in "+-" && AllDigits(Trim(segment)[1..]))
    ensures |Trim(segment)| > 1 && Trim(segment)[0] == '+' && AllDigits(Trim(segment)[1..]) ==>
      r == Some(DecimalValue(Trim(segment)[1..]))
    ensures |Trim(segment)| > 1 && Trim(segment)[0] == '-' && AllDigits(Trim(segment)[1..]) ==>
      r == Some(-(DecimalValue(Trim(segment)[1..]) as int))
  {
    var t := Trim(segment);
    if t == [] then Some(0)
    else if (t[0] == '+' || t[0] == '-') && |t| > 1 && AllDigits(t[1..]) then
      var magnitude: int := DecimalValue(t[1..]);
      Some(if t[0] == '-' then -magnitude else magnitude)
    else if AllDigits(t) then Some(DecimalValue(t))
    else None
  }

  /** A plain run of digits is read as its decimal value. */
  lemma SegmentOfDigits(d: string)
    requires d != [] && AllDigits(d)
    ensures SegmentValue(d) == Some(DecimalValue(d))
  {
    assert IsDigit(d[0]) && IsDigit(d[|d| - 1]);
    TrimFixed(d);
  }

  /** A minus sign before a run of digits negates its decimal value. */
  lemma SegmentOfNegated(d: string)
    requires d != [] && AllDigits(d)
    ensures SegmentValue("-" + d) == Some(-(DecimalValue(d) as int))
  {
    var s := "-" + d;
    assert s[1..] == d;
    assert !IsSpace(s[0]) && !IsSpace(s[|s| - 1]) by {
      assert s[|s| - 1] == d[|d| - 1] && IsDigit(d[|d| - 1]);
    }
    TrimFixed(s);
    SegmentOfTrimmedNegative(s);
  }

  /** A trimmed segment of a minus sign and digits is the negated decimal value. */
  lemma SegmentOfTrimmedNegative(s: string)
    requires Trim(s) == s && |s| > 1 && s[0] == '-' && AllDigits(s[1..])
    ensures SegmentValue(s) == Some(-(DecimalValue(s[1..]) as int))
  {
  }

  /** `Number` reads back the numeral a template literal prints for any integer. */
  lemma SegmentOfNumeral(i: int)
    ensures SegmentValue(IntToString(i)) == Some(i)
  {
    if i < 0 {
      var d := NatToString(-i);
      assert IntToString(i) == "-" + d;
      SegmentOfNegated(d);
      DecimalRoundTrip(-i);
    } else {
      var d := NatToString(i);
      assert IntToString(i) == d;
      SegmentOfDigits(d);
      DecimalRoundTrip(i);
    }
  }

  /**
   * `parseVersion(v)`: the trimmed string split on '.' must give exactly three
   * segments, each a number; the result is their values, never a partial triple.
   */
  function ParseVersion(v: string): (r: Option<Version>)
    ensures r.Some? ==> CountOf(Trim(v), '.') == 2
    ensures r.Some? ==>
      var parts := Split(Trim(v), '.');
      && SegmentValue(parts[0]) == Some(r.value.major)
      && SegmentValue(parts[1]) == Some(r.value.minor)
      && SegmentValue(parts[2]) == Some(r.value.patch)
  {
    var parts := Split(Trim(v), '.');
    if |parts| != 3 then None
    else
      match (SegmentValue(parts[0]), SegmentValue(parts[1]), SegmentValue(parts[2]))
      case (Some(major), Some(minor), Some(patch)) => Some(Version(major, minor, patch))
      case _ => None
  }

  /** A string whose trimmed form does not hold exactly two dots never parses. */
  lemma ParseNeedsTwoDots(v: string)
    requires CountOf(Trim(v), '.') != 2
    ensures ParseVersion(v) == None
  {
  }

  /** A version fails to parse when any one of its three segments is not a number. */
  lemma ParseRejectsBadSegment(v: string, k: nat)
    requires |Split(Trim(v), '.')| == 3 && k < 3
    requires SegmentValue(Split(Trim(v), '.')[k]) == None
    ensures ParseVersion(v) == None
  {
    var parts := Split(Trim(v), '.');
    assert SegmentValue(parts[0]) == None || SegmentValue(parts[1]) == None || SegmentValue(parts[2]) == None;
  }

  /**
   * `Number("")` is 0, so an empty segment reads as 0: "1.2." parses as 1.2.0
   * although it has only two numbers.
   */
  lemma EmptySegmentReadsAsZero()
    ensures ParseVersion("1.2.") == Some(Version(1, 2, 0))
  {
    SplitOfTruncated();
    SegmentsOfTruncated();
    ParseFromSegments("1.2.", "1", "2", "", 1, 2, 0);
  }

  /** The segments of "1.2." read as 1, 2 and 0. */
  lemma SegmentsOfTruncated()
    ensures SegmentValue("1") == Some(1) && SegmentValue("2") == Some(2) && SegmentValue("") == Some(0)
  {
    SegmentOfDigits("1");
    SegmentOfDigits("2");
  }

  lemma SplitOfTruncated()
    ensures Split(Trim("1.2."), '.') == ["1", "2", ""]
  {
    var v := "1.2.";
    assert !IsSpace(v[0]) && !IsSpace(v[|v| - 1]);
    TrimFixed(v);
    JoinThree("1", "2", "", '.');
    assert v == Join(["1", "2", ""], '.');
    SplitThree(v, "1", "2", "");
  }

  /** A version whose three segments have known values parses to those values. */
  lemma ParseFromSegments(v: string, a: string, b: string, c: string, x: int, y: int, z: int)
    requires Split(Trim(v), '.') == [a, b, c]
    requires SegmentValue(a) == Some(x) && SegmentValue(b) == Some(y) && SegmentValue(c) == Some(z)
    ensures ParseVersion(v) == Some(Version(x, y, z))
  {
  }

  /** The segments of a version whose trimmed form is three dot-free parts joined by dots. */
  lemma SplitThree(v: string, a: string, b: string, c: string)
    requires Trim(v) == Join([a, b, c], '.')
    requires '.' !in a && '.' !in b && '.' !in c
    ensures Split(Trim(v), '.') == [a, b, c]
  {
    assert forall k :: 0 <= k < 3 ==> '.' !in [a, b, c][k];
    SplitJoin([a, b, c], '.');
  }

  /** Surrounding white space does not change what a version parses to. */
  lemma ParseIgnoresPadding(v: string)
    ensures ParseVersion(Trim(v)) == ParseVersion(v)
  {
    TrimIdempotent(v);
  }

  /** The dotted form of a version, as `${major}.${minor}.${patch}` prints it. */
  function FormatVersion(v: Version): string {
    Join([IntToString(v.major), IntToString(v.minor), IntToString(v.patch)], '.')
  }

  /** Parsing the dotted form of any version gives that version back. */
  lemma ParseFormatRoundTrip(v: Version)
    ensures ParseVersion(FormatVersion(v)) == Some(v)
  {
    var a, b, c := IntToString(v.major), IntToString(v.minor), IntToString(v.patch);
    FormatSegments(v);
    SegmentOfNumeral(v.major);
    SegmentOfNumeral(v.minor);
    SegmentOfNumeral(v.patch);
    ParseFromSegments(FormatVersion(v), a, b, c, v.major, v.minor, v.patch);
  }

  /** The dotted form of a version trims to itself and splits into its three numerals. */
  lemma FormatSegments(v: Version)
    ensures Split(Trim(FormatVersion(v)), '.') == [IntToString(v.major), IntToString(v.minor), IntToString(v.patch)]
  {
    var a, b, c := IntToString(v.major), IntToString(v.minor), IntToString(v.patch);
    var s := FormatVersion(v);
    JoinThree(a, b, c, '.');
    assert s[0] == a[0] && s[|s| - 1] == c[|c| - 1];
    TrimFixed(s);
    NumeralHasNoDot(v.major);
    NumeralHasNoDot(v.minor);
    NumeralHasNoDot(v.patch);
    SplitThree(s, a, b, c);
  }

  /** A printed integer holds no dot. */
  lemma NumeralHasNoDot(i: int)
    ensures '.' !in IntToString(i)
  {
    var p := IntToString(i);
    forall j | 0 <= j < |p| ensures p[j] != '.' {
      if i < 0 && j > 0 {
        assert p[j] == NatToString(-i)[j - 1];
      }
    }
  }

  /** The version as the sequence [major, minor, patch], for the lexicographic reference order. */
  function Components(v: Version): seq<int> {
    [v.major, v.minor, v.patch]
  }

  /** Reference order: `a` precedes `b` lexicographically (equal lengths). */
  predicate LexLess(a: seq<int>, b: seq<int>)
    requires |a| == |b|
  {
    a != [] && (a[0] < b[0] || (a[0] == b[0] && LexLess(a[1..], b[1..])))
  }

  lemma {:induction false} LexIrreflexive(a: seq<int>)
    ensures !LexLess(a, a)
  {
    if a != [] {
      LexIrreflexive(a[1..]);
    }
  }

  lemma {:induction false} LexAsymmetric(a: seq<int>, b: seq<int>)
    requires |a| == |b|
    ensures LexLess(a, b) ==> !LexLess(b, a)
  {
    if a != [] {
      LexAsymmetric(a[1..], b[1..]);
    }
  }

  lemma {:induction false} LexTransitive(a: seq<int>, b: seq<int>, c: seq<int>)
    requires |a| == |b| == |c|
    requires LexLess(a, b) && LexLess(b, c)
    ensures LexLess(a, c)
  {
    if a[0] == b[0] == c[0] {
      LexTransitive(a[1..], b[1..], c[1..]);
    }
  }

  lemma {:induction false} LexTotal(a: seq<int>, b: seq<int>)
    requires |a| == |b| && a != b
    ensures LexLess(a, b) || LexLess(b, a)
  {
    if a[0] == b[0] {
      assert a == [a[0]] + a[1..] && b == [b[0]] + b[1..];
      LexTotal(a[1..], b[1..]);
    }
  }

  /** The comparison of `isNewer` once both sides parsed: major first, then minor, then patch. */
  function Greater(l: Version, c: Version): (g: bool)
    ensures g ==> l != c
    ensures l.major > c.major ==> g
    ensures l.major < c.major ==> !g
    ensures l.major == c.major && l.minor != c.minor ==> (g <==> l.minor > c.minor)
  {
    if l.major != c.major then l.major > c.major
    else if l.minor != c.minor then l.minor > c.minor
    else l.patch > c.patch
  }

  /** The source's cascade of comparisons is exactly the lexicographic order. */
  lemma GreaterIsLex(l: Version, c: Version)
    ensures Greater(l, c) <==> LexLess(Components(c), Components(l))
  {
    var sl, sc := Components(l), Components(c);
    assert sl[1..] == [l.minor, l.patch] && sc[1..] == [c.minor, c.patch];
    assert sl[1..][1..] == [l.patch] && sc[1..][1..] == [c.patch];
    assert sl[1..][1..][1..] == [] && sc[1..][1..][1..] == [];
    assert LexLess(sc[1..][1..], sl[1..][1..]) <==> c.patch < l.patch;
    assert LexLess(sc[1..], sl[1..]) <==> c.minor < l.minor || (c.minor == l.minor && c.patch < l.patch);
  }

  /**
   * `isNewer(latest, current)`: both must parse; then the parsed latest is
   * greater. An unparseable version is never newer, nor older.
   */
  function IsNewer(latest: string, current: string): (r: bool)
    ensures r ==> ParseVersion(latest).Some? && ParseVersion(current).Some?
  {
    match (ParseVersion(latest), ParseVersion(current))
    case (Some(l), Some(c)) => Greater(l, c)
    case _ => false
  }

  /** `isNewer` agrees with the lexicographic reference order on parsed versions. */
  lemma IsNewerIsLex(latest: string, current: string)
    ensures IsNewer(latest, current) <==>
      && ParseVersion(latest).Some? && ParseVersion(current).Some?
      && LexLess(Components(ParseVersion(current).value), Components(ParseVersion(latest).value))
  {
    if ParseVersion(latest).Some? && ParseVersion(current).Some? {
      GreaterIsLex(ParseVersion(latest).value, ParseVersion(current).value);
    }
  }

  /** No version is newer than itself. */
  lemma IsNewerIrreflexive(a: string)
    ensures !IsNewer(a, a)
  {
    IsNewerIsLex(a, a);
    if ParseVersion(a).Some? {
      LexIrreflexive(Components(ParseVersion(a).value));
    }
  }

  /** Two versions are never each newer than the other. */
  lemma IsNewerAsymmetric(a: string, b: string)
    ensures IsNewer(a, b) ==> !IsNewer(b, a)
  {
    IsNewerIsLex(a, b);
    IsNewerIsLex(b, a);
    if ParseVersion(a).Some? && ParseVersion(b).Some? {
      LexAsymmetric(Components(ParseVersion(b).value), Components(ParseVersion(a).value));
    }
  }

  lemma IsNewerTransitive(a: string, b: string, c: string)
    requires IsNewer(a, b) && IsNewer(b, c)
    ensures IsNewer(a, c)
  {
    IsNewerIsLex(a, b);
    IsNewerIsLex(b, c);
    IsNewerIsLex(a, c);
    LexTransitive(Components(ParseVersion(c).value), Components(ParseVersion(b).value),
      Components(ParseVersion(a).value));
  }

  /**
   * Of two parseable versions, exactly one is newer when their triples differ,
   * and neither when the triples are equal (as for "1.0.0" and "01.0.0").
   */
  lemma IsNewerTrichotomy(a: string, b: string)
    requires ParseVersion(a).Some? && ParseVersion(b).Some?
    ensures ParseVersion(a) != ParseVersion(b) <==> IsNewer(a, b) || IsNewer(b, a)
  {
    var x, y := ParseVersion(a).value, ParseVersion(b).value;
    IsNewerIsLex(a, b);
    IsNewerIsLex(b, a);
    if x != y {
      assert Components(x) != Components(y) by {
        assert x == Version(Components(x)[0], Components(x)[1], Components(x)[2]);
      }
      LexTotal(Components(x), Components(y));
    } else {
      LexIrreflexive(Components(x));
    }
  }

  /** A larger major version is newer whatever the minor and patch. */
  lemma MajorWins(a: string, b: string)
    requires ParseVersion(a).Some? && ParseVersion(b).Some?
    requires ParseVersion(a).value.major > ParseVersion(b).value.major
    ensures IsNewer(a, b)
  {
  }

  /** A version of single-digit segments, written out in dotted decimal, parses to its triple. */
  lemma ParseDigits(s: string, a: nat, b: nat, c: nat)
    requires a < 10 && b < 10 && c < 10
    requires s == [DigitChar(a), '.', DigitChar(b), '.', DigitChar(c)]
    ensures ParseVersion(s) == Some(Version(a, b, c))
  {
    JoinThree([DigitChar(a)], [DigitChar(b)], [DigitChar(c)], '.');
    assert s == FormatVersion(Version(a, b, c));
    ParseFormatRoundTrip(Version(a, b, c));
  }

  /** Concrete comparisons the module promises. */
  lemma IsNewerExamples()
    ensures IsNewer("2.0.0", "1.9.9")
    ensures !IsNewer("1.2.3", "1.2.3")
    ensures !IsNewer("1.2.3", "1.2.4")
  {
    ParseDigits("2.0.0", 2, 0, 0);
    ParseDigits("1.9.9", 1, 9, 9);
    ParseDigits("1.2.3", 1, 2, 3);
    ParseDigits("1.2.4", 1, 2, 4);
  }

  /** A string that is not a version is not newer than anything. */
  lemma UnparseableExample()
    ensures !IsNewer("bogus", "1.0.0")
  {
    TrimFixed("bogus");
    assert CountOf("bogus", '.') == 0;
  }
}
