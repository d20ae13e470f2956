/** The two built-in string operations of Python that the catalogue relies on:
    `str.lower()` and the `in` operator between strings. */
module PyStrings {

  /** The capitals that `str.lower()` maps to a letter 32 code points further on:
      the ASCII capitals A..Z and the Latin-1 capitals U+00C0..U+00DE except U+00D7,
      the multiplication sign. */
  predicate IsCapital(c: char)
  {
    'A' <= c <= 'Z' || ('\U{C0}' <= c <= '\U{DE}' && c != '\U{D7}')
  }

  /** Lower-case mapping of one character: a capital becomes its small letter, 32 code
      points further on, and every other character is left as it is. */
  function LowerChar(c: char): (r: char)
    ensures !IsCapital(r)
    ensures IsCapital(c) ==> r as int == c as int + 32
    ensures !IsCapital(c) ==> r == c
  {
    if IsCapital(c) then
      (c as int + 32) as char
    else
      c
  }

  /** `s.lower()`: every character mapped on its own. The result is as long as `s`
      and holds no capital. */
  function Lower(s: string): (r: string)
    ensures |r| == |s|
    ensures forall i :: 0 <= i < |r| ==> !IsCapital(r[i])
  {
    seq(|s|, i requires 0 <= i < |s| => LowerChar(s[i]))
  }

  /** `c` and `d` are the same letter up to case: equal, or one is a capital and the
      other its small letter. */
  predicate SameUpToCase(c: char, d: char)
  {
    c == d || (IsCapital(c) && d as int == c as int + 32) || (IsCapital(d) && c as int == d as int + 32)
  }

  /** `s` and `t` are case variants of each other: as long, and the same letter up to
      case at every position. */
  predicate CaseVariants(s: string, t: string)
  {
    |s| == |t| && forall i :: 0 <= i < |s| ==> SameUpToCase(s[i], t[i])
  }

  /** Two characters lower alike exactly when they are the same letter up to case, so
      lowering merges case variants and nothing else. */
  lemma LowerCharSame(c: char, d: char)
    ensures LowerChar(c) == LowerChar(d) <==> SameUpToCase(c, d)
  {
  }

  /** Two strings lower alike exactly when they are case variants of each other. */
  lemma LowerSame(s: string, t: string)
    ensures Lower(s) == Lower(t) <==> CaseVariants(s, t)
  {
    if Lower(s) == Lower(t) {
      forall i | 0 <= i < |s|
        ensures SameUpToCase(s[i], t[i])
      {
        assert Lower(s)[i] == Lower(t)[i];
        LowerCharSame(s[i], t[i]);
      }
    }
    if CaseVariants(s, t) {
      forall i | 0 <= i < |s|
        ensures Lower(s)[i] == Lower(t)[i]
      {
        LowerCharSame(s[i], t[i]);
      }
    }
  }

  /** `s.lower().lower() == s.lower()`: lowering an already lowered string changes
      nothing. */
  lemma LowerIdempotent(s: string)
    ensures Lower(Lower(s)) == Lower(s)
  {
  }

  /** `needle` occurs in `hay` starting at position `i`. */
  predicate OccursAt(needle: string, hay: string, i: int)
  {
    0 <= i <= |hay| - |needle| && hay[i..i + |needle|] == needle
  }

  /** `needle` occurs in `hay` as one contiguous block of characters. */
  ghost predicate IsSubstring(needle: string, hay: string)
  {
    exists i :: OccursAt(needle, hay, i)
  }

  /** `needle in hay` for two strings: tries every start position from the left. */
  function Contains(hay: string, needle: string): (r: bool)
    ensures r <==> IsSubstring(needle, hay)
    decreases |hay|
  {
    if |hay| < |needle| then
      false
    else if hay[..|needle|] == needle then
      assert OccursAt(needle, hay, 0);
      true
    else
      SubstringOfTail(hay, needle);
      Contains(hay[1..], needle)
  }

  /** When `needle` is not a prefix of `hay`, it occurs in `hay` exactly when it occurs
      in `hay` without its first character. */
  lemma SubstringOfTail(hay: string, needle: string)
    requires |needle| <= |hay| && hay[..|needle|] != needle
    ensures IsSubstring(needle, hay) <==> IsSubstring(needle, hay[1..])
  {
    var tail := hay[1..];
    if IsSubstring(needle, hay) {
      var i :| OccursAt(needle, hay, i);
      assert i != 0;
      assert tail[i - 1..i - 1 + |needle|] == needle;
      assert OccursAt(needle, tail, i - 1);
    }
    if IsSubstring(needle, tail) {
      var j :| OccursAt(needle, tail, j);
      assert hay[j + 1..j + 1 + |needle|] == needle;
      assert OccursAt(needle, hay, j + 1);
    }
  }

  /** Every string is in itself: `s in s` is always true. */
  lemma ContainsItself(s: string)
    ensures Contains(s, s)
  {
  }

  /** The empty string is in every string: `"" in s` is always true. */
  lemma EmptyIsInEverything(hay: string)
    ensures Contains(hay, "")
  {
    assert OccursAt("", hay, 0);
  }

  /** Every character of a string that occurs in `hay` is a character of `hay`, so a
      query holding a character the text lacks is not in it. */
  lemma CharsOfSubstring(needle: string, hay: string, c: char)
    requires Contains(hay, needle) && c in needle
    ensures c in hay
  {
    var i :| OccursAt(needle, hay, i);
    var k :| 0 <= k < |needle| && needle[k] == c;
    assert hay[i + k] == hay[i..i + |needle|][k];
  }
}
