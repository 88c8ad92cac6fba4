/**
 * The limited split of commons-lang `StringUtils.split(str, separatorChars, max)` for a
 * single separator character, as used to cut a decoded token into its fields.
 *
 * Adjacent separators are treated as one, empty fields are never produced, and once
 * `max - 1` fields have been taken the remainder of the string (from its first
 * non-separator character, separators included) becomes the last field. A `max` of 0
 * means "no limit".
 */
module StringSplit {

  /** Length of the field at the front of `s`: the position of the first separator, or |s|. */
  function FieldEnd(s: string, sep: char): (k: nat)
    ensures k <= |s|
    ensures forall j :: 0 <= j < k ==> s[j] != sep
    ensures k < |s| ==> s[k] == sep
  {
    if s == [] || s[0] == sep then 0 else 1 + FieldEnd(s[1..], sep)
  }

  /** A part that `Split` can produce: non-empty and not starting with the separator. */
  predicate IsPart(x: string, sep: char)
  {
    x != [] && x[0] != sep
  }

  /** A part produced before the limit was reached: also free of separators. */
  predicate IsPlainPart(x: string, sep: char)
  {
    x != [] && sep !in x
  }

  /**
   * The shape of the parts `Split` produces under limit `max`: no part is empty or starts
   * with the separator, and every part before the last allowed one is free of separators.
   */
  predicate WellFormedParts(parts: seq<string>, sep: char, max: nat)
  {
    parts == [] ||
      (&& IsPart(parts[0], sep)
       && (max != 1 ==> IsPlainPart(parts[0], sep))
       && WellFormedParts(parts[1..], sep, if max == 0 then 0 else max - 1))
  }

  /** `WellFormedParts` read part by part. */
  lemma {:induction false} WellFormedPartsAt(parts: seq<string>, sep: char, max: nat)
    requires WellFormedParts(parts, sep, max)
    ensures forall i :: 0 <= i < |parts| ==> IsPart(parts[i], sep)
    ensures forall i :: 0 <= i < |parts| && (max == 0 || i < max - 1) ==> IsPlainPart(parts[i], sep)
  {
    if parts != [] {
      var next := if max == 0 then 0 else max - 1;
      WellFormedPartsAt(parts[1..], sep, next);
      forall i | 1 <= i < |parts|
        ensures parts[i] == parts[1..][i - 1]
      {
      }
    }
  }

  /** The fields of `s`, cut at `sep`, at most `max` of them when `max > 0`. */
  function Split(s: string, sep: char, max: nat): (parts: seq<string>)
    ensures max > 0 ==> |parts| <= max
    ensures WellFormedParts(parts, sep, max)
    decreases |s|
  {
    if s == [] then []
    else if s[0] == sep then Split(s[1..], sep, max)
    else if max == 1 then [s]
    else
      var k := FieldEnd(s, sep);
      var field := s[..k];
      assert IsPlainPart(field, sep);
      var rest := Split(s[k..], sep, if max == 0 then 0 else max - 1);
      assert ([field] + rest)[1..] == rest;
      [field] + rest
  }

  /** A separator in front of the string is skipped: no empty field is produced. */
  lemma SplitSkipsSeparator(s: string, sep: char, max: nat)
    ensures Split([sep] + s, sep, max) == Split(s, sep, max)
  {
  }

  /** A non-empty, separator-free field followed by a separator is cut off as one part. */
  lemma SplitField(a: string, s: string, sep: char, max: nat)
    requires a != [] && sep !in a && max != 1
    ensures Split(a + [sep] + s, sep, max) == [a] + Split(s, sep, if max == 0 then 0 else max - 1)
  {
    var whole := a + [sep] + s;
    assert whole[0] == a[0] != sep;
    var k := FieldEnd(whole, sep);
    assert whole[|a|] == sep;
    assert whole[..|a|] == a;
    assert k == |a|;
    assert whole[..k] == a;
    assert whole[k..] == [sep] + s;
    SplitSkipsSeparator(s, sep, if max == 0 then 0 else max - 1);
  }

  /** A last part is taken whole, whatever separators it contains. */
  lemma SplitLastPart(d: string, sep: char)
    requires IsPart(d, sep)
    ensures Split(d, sep, 1) == [d]
  {
  }

  /** A separator-free part is a single part, whatever the limit. */
  lemma SplitOneField(d: string, sep: char, max: nat)
    requires IsPlainPart(d, sep)
    ensures Split(d, sep, max) == [d]
  {
    assert d[0] != sep;
    if max != 1 {
      assert FieldEnd(d, sep) == |d|;
      assert d[..|d|] == d && d[|d|..] == [];
      assert Split([], sep, if max == 0 then 0 else max - 1) == [];
    }
  }

  lemma {:induction false} SplitTwoFields(c: string, d: string, sep: char)
    requires IsPlainPart(c, sep) && IsPart(d, sep)
    ensures Split(c + [sep] + d, sep, 2) == [c, d]
  {
    SplitField(c, d, sep, 2);
    SplitLastPart(d, sep);
  }

  lemma {:induction false} SplitThreeFields(b: string, c: string, d: string, sep: char)
    requires IsPlainPart(b, sep) && IsPlainPart(c, sep) && IsPart(d, sep)
    ensures Split(b + [sep] + c + [sep] + d, sep, 3) == [b, c, d]
  {
    assert b + [sep] + c + [sep] + d == b + [sep] + (c + [sep] + d);
    SplitField(b, c + [sep] + d, sep, 3);
    SplitTwoFields(c, d, sep);
  }

  /**
   * A string made of four fields, where the first three are separator-free and the last
   * one only has to start with something other than a separator, splits back into them.
   */
  lemma {:induction false} SplitFourFields(a: string, b: string, c: string, d: string, sep: char)
    requires IsPlainPart(a, sep) && IsPlainPart(b, sep) && IsPlainPart(c, sep)
    requires IsPart(d, sep)
    ensures Split(a + [sep] + b + [sep] + c + [sep] + d, sep, 4) == [a, b, c, d]
  {
    var rest := b + [sep] + c + [sep] + d;
    assert a + [sep] + b + [sep] + c + [sep] + d == a + [sep] + rest;
    SplitThreeFields(b, c, d, sep);
    var tail := Split(rest, sep, 3);
    assert tail == [b, c, d];
    SplitField(a, rest, sep, 4);
  }
}
