/**
 * PHP's `version_compare($a, $b, '<')` restricted to dotted-numeric version strings
 * ("1.9", "2.10.3"): the strings are split on '.', segments are compared as numbers
 * from the left, and when one list of segments runs out first it is the lower
 * version ("1.0" < "1.0.0", as PHP orders a missing numeric tail).
 */
module Versions {

  /** `explode('.', $s)`: never empty, no part contains '.'. */
  function Split(s: string): (parts: seq<string>)
    ensures |parts| >= 1
    ensures forall i :: 0 <= i < |parts| ==> '.' !in parts[i]
    decreases |s|
  {
    if |s| == 0 then [""]
    else
      var rest := Split(s[1..]);
      if s[0] == '.' then [""] + rest
      else [[s[0]] + rest[0]] + rest[1..]
  }

  /** `implode('.', $parts)`, the inverse of Split. */
  function Join(parts: seq<string>): string
    requires |parts| >= 1
    decreases |parts|
  {
    if |parts| == 1 then parts[0] else parts[0] + "." + Join(parts[1..])
  }

  /** Splitting loses nothing: joining the parts back gives the original string. */
  lemma {:induction false} JoinSplit(s: string)
    ensures Join(Split(s)) == s
    decreases |s|
  {
    if |s| > 0 {
      var rest := Split(s[1..]);
      JoinSplit(s[1..]);
      if s[0] == '.' {
        assert Split(s) == [""] + rest;
        assert ([""] + rest)[1..] == rest;
        assert Join(Split(s)) == "" + "." + Join(rest);
      } else {
        var parts := [[s[0]] + rest[0]] + rest[1..];
        assert Split(s) == parts;
        if |rest| == 1 {
          assert Join(parts) == [s[0]] + rest[0];
        } else {
          assert parts[1..] == rest[1..];
          assert Join(parts) == [s[0]] + rest[0] + "." + Join(rest[1..]);
          assert Join(rest) == rest[0] + "." + Join(rest[1..]);
        }
        assert s == [s[0]] + s[1..];
      }
    }
  }

  predicate IsDigit(ch: char) {
    '0' <= ch <= '9'
  }

  /** One numeric segment: at least one digit and nothing else. */
  predicate IsNumericSegment(p: string) {
    |p| > 0 && forall i :: 0 <= i < |p| ==> IsDigit(p[i])
  }

  /** A version string in the domain of this model: every dot-separated segment is numeric. */
  predicate IsDottedNumeric(s: string) {
    var parts := Split(s);
    forall i :: 0 <= i < |parts| ==> IsNumericSegment(parts[i])
  }

  /** The decimal value of a string of digits (leading zeros allowed, as in PHP). */
  function SegmentValue(p: string): nat
    requires forall i :: 0 <= i < |p| ==> IsDigit(p[i])
    decreases |p|
  {
    if |p| == 0 then 0
    else
      assert IsDigit(p[|p| - 1]);
      SegmentValue(p[..|p| - 1]) * 10 + (p[|p| - 1] as int - '0' as int)
  }

  /** The numeric segments of a dotted-numeric version, left to right. */
  function Numbers(s: string): (ns: seq<nat>)
    requires IsDottedNumeric(s)
    ensures |ns| == |Split(s)|
  {
    var parts := Split(s);
    seq(|parts|, i requires 0 <= i < |parts| => SegmentValue(parts[i]))
  }

  /** Segment-wise numeric order; a list that is a proper prefix of the other is lower. */
  predicate Lex(a: seq<nat>, b: seq<nat>)
    decreases |a|
  {
    if |a| == 0 then |b| > 0
    else if |b| == 0 then false
    else if a[0] != b[0] then a[0] < b[0]
    else Lex(a[1..], b[1..])
  }

  /** `version_compare($a, $b, '<')` on the dotted-numeric domain; false outside it. */
  predicate VersionLess(a: string, b: string) {
    IsDottedNumeric(a) && IsDottedNumeric(b) && Lex(Numbers(a), Numbers(b))
  }

  lemma {:induction false} LexIrreflexive(a: seq<nat>)
    ensures !Lex(a, a)
    decreases |a|
  {
    if |a| > 0 {
      LexIrreflexive(a[1..]);
    }
  }

  lemma {:induction false} LexTransitive(a: seq<nat>, b: seq<nat>, c: seq<nat>)
    requires Lex(a, b) && Lex(b, c)
    ensures Lex(a, c)
    decreases |a|
  {
    if |a| > 0 && a[0] == b[0] && b[0] == c[0] {
      LexTransitive(a[1..], b[1..], c[1..]);
    }
  }

  /** Two different segment lists are always ordered one way or the other. */
  lemma {:induction false} LexTotal(a: seq<nat>, b: seq<nat>)
    requires a != b
    ensures Lex(a, b) || Lex(b, a)
    decreases |a|
  {
    if |a| > 0 && |b| > 0 && a[0] == b[0] {
      assert a == [a[0]] + a[1..] && b == [b[0]] + b[1..];
      LexTotal(a[1..], b[1..]);
    }
  }

  /** No version is lower than itself. */
  lemma VersionLessIrreflexive(a: string)
    ensures !VersionLess(a, a)
  {
    if IsDottedNumeric(a) {
      LexIrreflexive(Numbers(a));
    }
  }

  /** The comparison is transitive, so chains of upgrades stay upgrades. */
  lemma VersionLessTransitive(a: string, b: string, c: string)
    requires VersionLess(a, b) && VersionLess(b, c)
    ensures VersionLess(a, c)
  {
    LexTransitive(Numbers(a), Numbers(b), Numbers(c));
  }

  /** Irreflexive and transitive, hence asymmetric: a strict upgrade is never also a downgrade. */
  lemma VersionLessAsymmetric(a: string, b: string)
    requires VersionLess(a, b)
    ensures !VersionLess(b, a)
  {
    if VersionLess(b, a) {
      VersionLessTransitive(a, b, a);
      VersionLessIrreflexive(a);
    }
  }

  /** On the dotted-numeric domain the order is total up to numerically equal spellings ("1.01" and "1.1"). */
  lemma VersionLessTotal(a: string, b: string)
    requires IsDottedNumeric(a) && IsDottedNumeric(b)
    ensures VersionLess(a, b) || VersionLess(b, a) || Numbers(a) == Numbers(b)
  {
    if Numbers(a) != Numbers(b) {
      LexTotal(Numbers(a), Numbers(b));
    }
  }

  /** Split unfolded one character at a time. */
  lemma SplitCons(c: char, t: string)
    ensures Split([c] + t) == if c == '.' then [""] + Split(t) else [[c] + Split(t)[0]] + Split(t)[1..]
  {
    assert ([c] + t)[1..] == t;
  }

  lemma SplitOneNine()
    ensures Split("1.9") == ["1", "9"]
  {
    assert Split("") == [""];
    SplitCons('9', "");
    assert "9" == ['9'] + "";
    assert Split("9") == ["9"];
    SplitCons('.', "9");
    assert ".9" == ['.'] + "9";
    assert Split(".9") == ["", "9"];
    SplitCons('1', ".9");
    assert "1.9" == ['1'] + ".9";
    assert ["", "9"][1..] == ["9"] && ['1'] + "" == "1";
  }

  lemma SplitOneTen()
    ensures Split("1.10") == ["1", "10"]
  {
    assert Split("") == [""];
    SplitCons('0', "");
    assert "0" == ['0'] + "";
    assert Split("0") == ["0"];
    SplitCons('1', "0");
    assert "10" == ['1'] + "0";
    assert Split("10") == ["10"];
    SplitCons('.', "10");
    assert ".10" == ['.'] + "10";
    SplitCons('1', ".10");
    assert "1.10" == ['1'] + ".10";
    assert ["", "10"][1..] == ["10"] && ['1'] + "" == "1";
  }

  /** Segments compare as numbers, not as text: "1.9" is lower than "1.10". */
  lemma NumericNotLexical()
    ensures VersionLess("1.9", "1.10")
    ensures !VersionLess("1.10", "1.9")
  {
    NumbersOfExamples();
    assert Lex([9], [10]);
    assert !Lex([10], [9]);
  }

  lemma NumbersOfExamples()
    ensures IsDottedNumeric("1.9") && Numbers("1.9") == [1, 9]
    ensures IsDottedNumeric("1.10") && Numbers("1.10") == [1, 10]
  {
    SplitOneNine();
    SplitOneTen();
    assert SegmentValue("1") == 1;
    assert SegmentValue("9") == 9;
    assert SegmentValue("10") == 10;
  }

  /** A string without '.' is a single segment. */
  lemma {:induction false} SplitNoDot(p: string)
    requires '.' !in p
    ensures Split(p) == [p]
    decreases |p|
  {
    if |p| > 0 {
      assert '.' !in p[1..] by {
        forall i | 0 <= i < |p[1..]|
          ensures p[1..][i] != '.'
        {
          assert p[1..][i] == p[i + 1];
        }
      }
      SplitNoDot(p[1..]);
      assert p == [p[0]] + p[1..];
    }
  }

  /** Appending "." and a dot-free segment appends one part. */
  lemma {:induction false} SplitDotSuffix(a: string, p: string)
    requires '.' !in p
    ensures Split(a + "." + p) == Split(a) + [p]
    decreases |a|
  {
    if |a| == 0 {
      assert a + "." + p == ['.'] + p;
      SplitCons('.', p);
      SplitNoDot(p);
    } else {
      var t := a[1..];
      assert a + "." + p == [a[0]] + (t + "." + p);
      assert a == [a[0]] + t;
      SplitCons(a[0], t + "." + p);
      SplitCons(a[0], t);
      SplitDotSuffix(t, p);
      if a[0] != '.' {
        assert (Split(t) + [p])[1..] == Split(t)[1..] + [p];
      }
    }
  }

  /** A list is lower than any proper extension of itself. */
  lemma {:induction false} LexExtension(a: seq<nat>, b: seq<nat>)
    requires |b| > 0
    ensures Lex(a, a + b)
    decreases |a|
  {
    if |a| > 0 {
      assert (a + b)[1..] == a[1..] + b;
      LexExtension(a[1..], b);
    }
  }

  /**
   * A trailing ".0" makes a version strictly higher, as PHP's version_compare orders
   * "2.0" below "2.0.0"; the two are never treated as equal.
   */
  lemma TrailingZeroIsHigher(a: string)
    requires IsDottedNumeric(a)
    ensures VersionLess(a, a + ".0")
    ensures !VersionLess(a + ".0", a)
  {
    SplitDotSuffix(a, "0");
    assert a + ".0" == a + "." + "0";
    var parts := Split(a + ".0");
    assert parts == Split(a) + ["0"];
    assert IsNumericSegment("0");
    assert IsDottedNumeric(a + ".0");
    assert SegmentValue("0") == 0 by {
      assert "0"[..0] == "";
    }
    assert Numbers(a + ".0") == Numbers(a) + [0];
    LexExtension(Numbers(a), [0]);
    VersionLessAsymmetric(a, a + ".0");
  }
}
