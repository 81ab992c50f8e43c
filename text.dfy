/**
 * The string operations the views rely on: Python's `str.strip()`, the
 * case-insensitive substring test behind the ORM's `icontains`, and the
 * character-by-character order that `order_by` applies to text columns.
 */
module Text {

  /** Python's `str.isspace()` restricted to the ASCII range. */
  predicate IsSpace(c: char) {
    // space; tab, line feed, vertical tab, form feed, carriage return (9-13);
    // the file, group, record and unit separators (28-31)
    c == ' ' || 9 <= c as int <= 13 || 28 <= c as int <= 31
  }

  predicate Blank(s: string) {
    forall k :: 0 <= k < |s| ==> IsSpace(s[k])
  }

  /** Python's `s.strip()`: `s` with the whitespace at both ends removed; empty exactly for an all-whitespace `s`. */
  function Strip(s: string): (r: string)
    ensures r == [] <==> Blank(s)
    decreases |s|
  {
    if s == [] then []
    else if IsSpace(s[0]) then
      var r := Strip(s[1..]);
      assert r == [] <==> Blank(s) by {
        if Blank(s[1..]) { assert forall k :: 1 <= k < |s| ==> s[k] == s[1..][k - 1]; }
        if Blank(s) { assert forall k :: 0 <= k < |s| - 1 ==> s[1..][k] == s[k + 1]; }
      }
      r
    else if IsSpace(s[|s| - 1]) then
      var r := Strip(s[..|s| - 1]);
      assert s[..|s| - 1][0] == s[0];
      r
    else
      s
  }

  /** What `strip()` leaves has no whitespace at either end. */
  lemma {:induction false} StripEnds(s: string)
    ensures Strip(s) == [] || (!IsSpace(Strip(s)[0]) && !IsSpace(Strip(s)[|Strip(s)| - 1]))
    decreases |s|
  {
    if s != [] && IsSpace(s[0]) {
      StripEnds(s[1..]);
    } else if s != [] && IsSpace(s[|s| - 1]) {
      StripEnds(s[..|s| - 1]);
    }
  }

  /** What `strip()` leaves is the piece of `s` starting at `i`; everything cut off on either side is whitespace. */
  lemma {:induction false} StripCut(s: string) returns (i: nat)
    ensures IsCut(s, Strip(s), i)
    decreases |s|
  {
    if s == [] {
      i := 0;
    } else if IsSpace(s[0]) {
      var j := StripCut(s[1..]);
      i := j + 1;
      CutFront(s, Strip(s), j);
    } else if IsSpace(s[|s| - 1]) {
      i := StripCut(s[..|s| - 1]);
      CutBack(s, Strip(s), i);
    } else {
      i := 0;
    }
  }

  /** `r` is the piece of `s` at `i` and everything around it is whitespace. */
  predicate IsCut(s: string, r: string, i: nat) {
    && i + |r| <= |s| && s[i..i + |r|] == r
    && Blank(s[..i]) && Blank(s[i + |r|..])
  }

  lemma CutFront(s: string, r: string, j: nat)
    requires s != [] && IsSpace(s[0]) && IsCut(s[1..], r, j)
    ensures IsCut(s, r, j + 1)
  {
    assert s[j + 1..j + 1 + |r|] == s[1..][j..j + |r|];
    assert s[..j + 1] == [s[0]] + s[1..][..j];
    assert s[j + 1 + |r|..] == s[1..][j + |r|..];
  }

  lemma CutBack(s: string, r: string, i: nat)
    requires s != [] && IsSpace(s[|s| - 1]) && IsCut(s[..|s| - 1], r, i)
    ensures IsCut(s, r, i)
  {
    var t := s[..|s| - 1];
    assert s[i..i + |r|] == t[i..i + |r|];
    assert s[..i] == t[..i];
    assert s[i + |r|..] == t[i + |r|..] + [s[|s| - 1]];
  }

  /** Stripping twice is stripping once. */
  lemma StripIdempotent(s: string)
    ensures Strip(Strip(s)) == Strip(s)
  {
    StripEnds(s);
  }

  function LowerChar(c: char): (d: char)
    ensures 'A' <= c <= 'Z' ==> 'a' <= d <= 'z'
    ensures !('A' <= c <= 'Z') ==> d == c
  {
    if 'A' <= c <= 'Z' then (c as int - 'A' as int + 'a' as int) as char else c
  }

  /** ASCII lower-casing, the case folding of SQLite's LIKE. */
  function Lower(s: string): (r: string)
    ensures |r| == |s|
    ensures forall k :: 0 <= k < |s| ==> r[k] == LowerChar(s[k])
  {
    if s == [] then [] else [LowerChar(s[0])] + Lower(s[1..])
  }

  /** `needle` occurs in `hay` starting at position `i`. */
  predicate OccursAt(hay: string, needle: string, i: nat) {
    i + |needle| <= |hay| && hay[i..i + |needle|] == needle
  }

  function Contains(hay: string, needle: string): (b: bool)
    ensures b <==> exists i: nat :: OccursAt(hay, needle, i)
  {
    if needle <= hay then
      assert OccursAt(hay, needle, 0);
      true
    else if hay == [] then
      assert needle != [];
      false
    else
      var b := Contains(hay[1..], needle);
      assert b ==> exists i: nat :: OccursAt(hay, needle, i) by {
        if b {
          var i: nat :| OccursAt(hay[1..], needle, i);
          assert hay[1..][i..i + |needle|] == hay[i + 1..i + 1 + |needle|];
          assert OccursAt(hay, needle, i + 1);
        }
      }
      assert (exists i: nat :: OccursAt(hay, needle, i)) ==> b by {
        if exists i: nat :: OccursAt(hay, needle, i) {
          var i: nat :| OccursAt(hay, needle, i);
          assert i != 0;
          assert hay[1..][i - 1..i - 1 + |needle|] == hay[i..i + |needle|];
          assert OccursAt(hay[1..], needle, i - 1);
        }
      }
      b
  }

  /** The ORM's `icontains` lookup. */
  predicate ContainsIgnoringCase(hay: string, needle: string) {
    Contains(Lower(hay), Lower(needle))
  }

  /** Character-by-character (code point) order on strings. */
  predicate StrLe(a: string, b: string) {
    if a == [] then true
    else if b == [] then false
    else if a[0] != b[0] then a[0] < b[0]
    else StrLe(a[1..], b[1..])
  }

  lemma {:induction false} StrLeTotal(a: string, b: string)
    ensures StrLe(a, b) || StrLe(b, a)
  {
    if a != [] && b != [] && a[0] == b[0] {
      StrLeTotal(a[1..], b[1..]);
    }
  }

  lemma {:induction false} StrLeTransitive(a: string, b: string, c: string)
    requires StrLe(a, b) && StrLe(b, c)
    ensures StrLe(a, c)
  {
    if a != [] && b != [] && c != [] && a[0] == b[0] && b[0] == c[0] {
      StrLeTransitive(a[1..], b[1..], c[1..]);
    }
  }

  lemma {:induction false} StrLeAntisymmetric(a: string, b: string)
    requires StrLe(a, b) && StrLe(b, a)
    ensures a == b
  {
    if a != [] && b != [] {
      StrLeAntisymmetric(a[1..], b[1..]);
      assert a == [a[0]] + a[1..] && b == [b[0]] + b[1..];
    }
  }
}
