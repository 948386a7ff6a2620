/**
 * The string operations the catalog filter relies on: lower-casing and
 * substring containment (Python's `str.lower` and `needle in hay`).
 */
module Text {

  /**
   * The capital letters whose lower-case form is one code point 0x20 higher:
   * A-Z and the Latin-1 capitals U+00C0-U+00DE except the multiplication sign.
   */
  predicate IsUpper(c: char)
  {
    'A' <= c <= 'Z' || ('\U{C0}' <= c <= '\U{DE}' && c != '\U{D7}')
  }

  /** Lower-cases one character; on U+0000-U+00FF this is Python's `str.lower`. */
  function LowerChar(c: char): (r: char)
    ensures !IsUpper(r)
    ensures IsUpper(c) ==> r as int == c as int + 0x20
    ensures IsUpper(c) || r == c
  {
    if IsUpper(c) then (c as int + 0x20) as char else c
  }

  /** Lower-cases a string character by character. */
  function Lower(s: string): (r: string)
    ensures |r| == |s|
    ensures forall i :: 0 <= i < |r| ==> !IsUpper(r[i])
    ensures forall i :: 0 <= i < |s| && IsUpper(s[i]) ==> r[i] as int == s[i] as int + 0x20
    ensures forall i :: 0 <= i < |s| && !IsUpper(s[i]) ==> r[i] == s[i]
  {
    seq(|s|, i requires 0 <= i < |s| => LowerChar(s[i]))
  }

  /** Two characters are the same letter: equal, or a capital and its lower-case form. */
  predicate SameUpToCase(c: char, d: char)
  {
    c == d ||
    (IsUpper(c) && d as int == c as int + 0x20) ||
    (IsUpper(d) && c as int == d as int + 0x20)
  }

  /** Two characters lower-case to the same character exactly when they are the same letter. */
  lemma LowerCharEq(c: char, d: char)
    ensures LowerChar(c) == LowerChar(d) <==> SameUpToCase(c, d)
  {
  }

  /** Two strings lower-case to the same string exactly when they agree letter by letter up to case. */
  lemma LowerEqIff(a: string, b: string)
    ensures Lower(a) == Lower(b) <==> |a| == |b| && forall i :: 0 <= i < |a| ==> SameUpToCase(a[i], b[i])
  {
    forall i | 0 <= i < |a| && i < |b| {
      LowerCharEq(a[i], b[i]);
    }
    if |a| == |b| && forall i :: 0 <= i < |a| ==> SameUpToCase(a[i], b[i]) {
      assert forall i :: 0 <= i < |a| ==> Lower(a)[i] == Lower(b)[i];
    }
  }

  /** Lower-casing keeps the length, and lower-casing twice is lower-casing once. */
  lemma LowerIdempotent(s: string)
    ensures |Lower(s)| == |s|
    ensures Lower(Lower(s)) == Lower(s)
  {
  }

  /** `needle` occurs in `hay` starting at position `i`. */
  ghost predicate OccursAt(hay: string, needle: string, i: nat)
  {
    i + |needle| <= |hay| && hay[i..i + |needle|] == needle
  }

  /** `needle` occurs in `hay` as a contiguous block. */
  ghost predicate Contains(hay: string, needle: string)
  {
    exists i: nat :: OccursAt(hay, needle, i)
  }

  /**
   * Python's `needle in hay` on strings, decided by trying each start
   * position: the empty string is in every string, and nothing longer than
   * `hay` is in it.
   */
  function Occurs(needle: string, hay: string): (r: bool)
    ensures needle == [] ==> r
    ensures r ==> |needle| <= |hay|
  {
    |needle| <= |hay| && (hay[..|needle|] == needle || (hay != [] && Occurs(needle, hay[1..])))
  }

  /** The search finds `needle` exactly when it occurs in `hay`. */
  lemma {:induction false} OccursIffContains(needle: string, hay: string)
    ensures Occurs(needle, hay) <==> Contains(hay, needle)
  {
    if |needle| <= |hay| && hay[..|needle|] != needle && hay != [] {
      OccursIffContains(needle, hay[1..]);
      if Contains(hay, needle) {
        var i: nat :| OccursAt(hay, needle, i);
        assert i != 0;
        assert OccursAt(hay[1..], needle, i - 1) by {
          assert hay[1..][i - 1..i - 1 + |needle|] == hay[i..i + |needle|];
        }
      }
      if Contains(hay[1..], needle) {
        var i: nat :| OccursAt(hay[1..], needle, i);
        assert OccursAt(hay, needle, i + 1) by {
          assert hay[1..][i..i + |needle|] == hay[i + 1..i + 1 + |needle|];
        }
      }
    } else if |needle| <= |hay| && hay[..|needle|] == needle {
      assert OccursAt(hay, needle, 0);
    }
  }

  /**
   * A string in which the character `needle[k]` appears neither as itself
   * nor as its capital `uc` does not contain `needle` once lower-cased.
   */
  lemma MissingCharRulesOut(raw: string, needle: string, k: nat, uc: char)
    requires k < |needle| && !IsUpper(needle[k]) && IsUpper(uc) && uc as int + 0x20 == needle[k] as int
    requires needle[k] !in raw && uc !in raw
    ensures !Contains(Lower(raw), needle)
  {
    forall i: nat | i + |needle| <= |Lower(raw)|
      ensures !OccursAt(Lower(raw), needle, i)
    {
      assert raw[i + k] in raw;
      assert Lower(raw)[i..i + |needle|][k] != needle[k];
    }
  }
}
