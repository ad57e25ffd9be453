/**
  The string operations the confidence scorer relies on: `str.lower()`
  (restricted to ASCII), the substring test `needle in haystack`, and
  `sep.join(parts)`.
 */
module Text {

  /**
    `c.lower()` on ASCII: a capital becomes the small letter at the same place
    in the alphabet, and every other character is kept.
   */
  function LowerChar(c: char): (r: char)
    ensures !('A' <= r <= 'Z')
    ensures 'A' <= c <= 'Z' ==> 'a' <= r <= 'z' && r as int - 'a' as int == c as int - 'A' as int
    ensures !('A' <= c <= 'Z') ==> r == c
  {
    if 'A' <= c <= 'Z' then (c as int + 32) as char else c
  }

  /**
    `s.lower()` on ASCII letters: the result has the same length, no ASCII
    capital is left, each capital becomes its small letter, and every
    character that is not a capital is kept.
   */
  function Lower(s: string): (r: string)
    ensures |r| == |s|
    ensures forall i :: 0 <= i < |r| ==> !('A' <= r[i] <= 'Z')
    ensures forall i :: 0 <= i < |s| && 'A' <= s[i] <= 'Z' ==> r[i] as int - 'a' as int == s[i] as int - 'A' as int
    ensures forall i :: 0 <= i < |s| && !('A' <= s[i] <= 'Z') ==> r[i] == s[i]
  {
    seq(|s|, i requires 0 <= i < |s| => LowerChar(s[i]))
  }

  predicate IsPrefix(needle: string, hay: string) {
    |needle| <= |hay| && hay[..|needle|] == needle
  }

  /**
    `needle in hay`, as a scan of the start positions of `hay` from left to
    right. A needle is never found in a shorter haystack.
   */
  predicate IsSubstring(needle: string, hay: string)
    ensures IsSubstring(needle, hay) ==> |needle| <= |hay|
  {
    IsPrefix(needle, hay) || (hay != [] && IsSubstring(needle, hay[1..]))
  }

  /** `needle` occurs in `hay` starting at position `i`. */
  predicate OccursAt(needle: string, hay: string, i: int) {
    0 <= i && i + |needle| <= |hay| && hay[i..i + |needle|] == needle
  }

  /** The total length of `parts`. */
  function TotalLength(parts: seq<string>): nat {
    if parts == [] then 0 else |parts[0]| + TotalLength(parts[1..])
  }

  /**
    `sep.join(parts)`: every part once, with one separator between
    neighbours, so its length is that of the parts plus `|parts| - 1`
    separators.
   */
  function Join(sep: string, parts: seq<string>): (r: string)
    ensures |parts| == 1 ==> r == parts[0]
    ensures |r| == TotalLength(parts) + (if parts == [] then 0 else (|parts| - 1) * |sep|)
  {
    if parts == [] then ""
    else if |parts| == 1 then parts[0]
    else parts[0] + sep + Join(sep, parts[1..])
  }

  /** The scan finds `needle` exactly when it occurs at some position of `hay`. */
  lemma {:induction false} SubstringAt(needle: string, hay: string)
    ensures IsSubstring(needle, hay) <==> exists i :: OccursAt(needle, hay, i)
  {
    if hay == [] {
      if IsSubstring(needle, hay) {
        assert OccursAt(needle, hay, 0);
      }
    } else {
      SubstringAt(needle, hay[1..]);
      if IsPrefix(needle, hay) {
        assert OccursAt(needle, hay, 0);
      } else if IsSubstring(needle, hay[1..]) {
        var i :| OccursAt(needle, hay[1..], i);
        assert hay[i + 1..i + 1 + |needle|] == hay[1..][i..i + |needle|];
        assert OccursAt(needle, hay, i + 1);
      }
      if exists i :: OccursAt(needle, hay, i) {
        var i :| OccursAt(needle, hay, i);
        if i > 0 {
          assert hay[1..][i - 1..i - 1 + |needle|] == hay[i..i + |needle|];
          assert OccursAt(needle, hay[1..], i - 1);
        }
      }
    }
  }

  /** Lower-casing keeps the length, so only the empty string lower-cases to `""`. */
  lemma LowerEmpty(s: string)
    ensures Lower(s) == "" <==> s == ""
  {
  }

  /**
    Two characters that are equal once case is ignored: the same character,
    or the capital and the small form of one ASCII letter.
   */
  predicate SameLetter(a: char, b: char) {
    || a == b
    || ('A' <= a <= 'Z' && 'a' <= b <= 'z' && b as int - 'a' as int == a as int - 'A' as int)
    || ('A' <= b <= 'Z' && 'a' <= a <= 'z' && a as int - 'a' as int == b as int - 'A' as int)
  }

  /** Two strings that are equal once ASCII case is ignored, position by position. */
  predicate EqualIgnoringCase(s: string, t: string) {
    |s| == |t| && forall i :: 0 <= i < |s| ==> SameLetter(s[i], t[i])
  }

  /**
    Lower-casing forgets exactly the case: two strings lower-case to the same
    string iff they are equal once ASCII case is ignored. So the industry test
    `ind.lower() in industry.lower()` is blind to case on both sides.
   */
  lemma LowerIgnoresCase(s: string, t: string)
    ensures Lower(s) == Lower(t) <==> EqualIgnoringCase(s, t)
  {
  }

  /** Lower-casing twice is lower-casing once. */
  lemma LowerIdempotent(s: string)
    ensures Lower(Lower(s)) == Lower(s)
  {
  }

  /** Only the empty string occurs in the empty string. */
  lemma SubstringOfEmpty(needle: string)
    ensures IsSubstring(needle, "") <==> needle == ""
  {
  }

  /**
    A needle without a space occurs in `a + " " + b` exactly when it occurs in
    `a` or in `b`: no occurrence can straddle the separator.
   */
  lemma SubstringAcrossSpace(needle: string, a: string, b: string)
    requires ' ' !in needle
    ensures IsSubstring(needle, a + " " + b) <==> IsSubstring(needle, a) || IsSubstring(needle, b)
  {
    var h := a + " " + b;
    SubstringAt(needle, h);
    SubstringAt(needle, a);
    SubstringAt(needle, b);
    if IsSubstring(needle, h) {
      var i :| OccursAt(needle, h, i);
      OccurrenceInPart(needle, a, b, i);
    }
    if IsSubstring(needle, a) {
      var i :| OccursAt(needle, a, i);
      assert h[i..i + |needle|] == a[i..i + |needle|];
      assert OccursAt(needle, h, i);
    }
    if IsSubstring(needle, b) {
      var i :| OccursAt(needle, b, i);
      assert h[i + |a| + 1..i + |a| + 1 + |needle|] == b[i..i + |needle|];
      assert OccursAt(needle, h, i + |a| + 1);
    }
  }

  /** An occurrence in `a + " " + b` lies inside `a`, inside `b`, or covers the separator. */
  lemma OccurrenceInPart(needle: string, a: string, b: string, i: int)
    requires OccursAt(needle, a + " " + b, i)
    ensures OccursAt(needle, a, i) || OccursAt(needle, b, i - |a| - 1) || ' ' in needle
  {
    var h, n := a + " " + b, |needle|;
    if i + n <= |a| {
      assert a[i..i + n] == h[i..i + n];
    } else if i > |a| {
      assert b[i - |a| - 1..i - |a| - 1 + n] == h[i..i + n];
    } else {
      assert needle[|a| - i] == h[|a|];
    }
  }

  /**
    A non-empty needle without a space occurs in the parts joined with single
    spaces exactly when it occurs in one of the parts.
   */
  lemma {:induction false} SubstringOfJoin(needle: string, parts: seq<string>)
    requires needle != "" && ' ' !in needle
    ensures IsSubstring(needle, Join(" ", parts)) <==> exists k :: 0 <= k < |parts| && IsSubstring(needle, parts[k])
  {
    if parts == [] {
      SubstringOfEmpty(needle);
    } else if |parts| > 1 {
      SubstringOfJoin(needle, parts[1..]);
      SubstringAcrossSpace(needle, parts[0], Join(" ", parts[1..]));
      assert forall k :: 1 <= k < |parts| ==> parts[k] == parts[1..][k - 1];
    }
  }
}
