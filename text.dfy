/** Text helpers standing in for the three java.lang.String operations the ledger
    relies on: trim().isEmpty(), equalsIgnoreCase and toLowerCase().contains(). */
module Text {

  /** Java's trim() strips every leading and trailing character whose code
      point is at most U+0020 (space and all control characters). */
  predicate IsTrimmable(c: char) {
    c <= ' '
  }

  /** Removes the longest prefix of trimmable characters. */
  function TrimStart(s: string): (r: string)
    ensures |r| <= |s| && r == s[|s| - |r|..]
    ensures forall i :: 0 <= i < |s| - |r| ==> IsTrimmable(s[i])
    ensures r != [] ==> !IsTrimmable(r[0])
    decreases |s|
  {
    if s != [] && IsTrimmable(s[0]) then TrimStart(s[1..]) else s
  }

  /** Removes the longest suffix of trimmable characters. */
  function TrimEnd(s: string): (r: string)
    ensures |r| <= |s| && r == s[..|r|]
    ensures forall i :: |r| <= i < |s| ==> IsTrimmable(s[i])
    ensures r != [] ==> !IsTrimmable(r[|r| - 1])
    decreases |s|
  {
    if s != [] && IsTrimmable(s[|s| - 1]) then TrimEnd(s[..|s| - 1]) else s
  }

  /** `s.trim()`: the block of `s` left once the trimmable characters at
      both ends are gone; neither end of it is trimmable. */
  function Trim(s: string): (r: string)
    ensures OccursAt(r, s, |s| - |TrimStart(s)|)
    ensures forall i :: 0 <= i < |s| && !(|s| - |TrimStart(s)| <= i < |s| - |TrimStart(s)| + |r|) ==>
              IsTrimmable(s[i])
    ensures r != [] ==> !IsTrimmable(r[0]) && !IsTrimmable(r[|r| - 1])
  {
    var t := TrimStart(s);
    var r := TrimEnd(t);
    assert s[|s| - |t|..][..|r|] == s[|s| - |t|..|s| - |t| + |r|];
    r
  }

  /** `s.trim().isEmpty()`: every character of `s` is trimmable. */
  predicate IsBlank(s: string)
    ensures IsBlank(s) <==> forall i :: 0 <= i < |s| ==> IsTrimmable(s[i])
  {
    BlankIffAllTrimmable(s);
    Trim(s) == []
  }

  /** Trimming leaves nothing exactly when every character is trimmable. */
  lemma BlankIffAllTrimmable(s: string)
    ensures Trim(s) == [] <==> forall i :: 0 <= i < |s| ==> IsTrimmable(s[i])
  {
    var t := TrimStart(s);
    if t != [] {
      assert !IsTrimmable(s[|s| - |t|]);
    }
  }

  /** Lower-case mapping of the basic Latin and Russian alphabets. */
  function LowerChar(c: char): char {
    if 'A' <= c <= 'Z' then (c as int + 32) as char
    else if 'А' <= c <= 'Я' then (c as int + 32) as char
    else if c == 'Ё' then 'ё'
    else c
  }

  function Lower(s: string): string {
    seq(|s|, i requires 0 <= i < |s| => LowerChar(s[i]))
  }

  /** `a.equalsIgnoreCase(b)`: same length, and the characters agree pairwise
      once lower-cased. */
  predicate EqualsIgnoreCase(a: string, b: string)
    ensures EqualsIgnoreCase(a, b) <==>
      |a| == |b| && forall i :: 0 <= i < |a| ==> LowerChar(a[i]) == LowerChar(b[i])
  {
    assert |a| == |b| ==> forall i :: 0 <= i < |a| ==> Lower(a)[i] == LowerChar(a[i]) && Lower(b)[i] == LowerChar(b[i]);
    Lower(a) == Lower(b)
  }

  /** `needle` occurs in `hay` as a contiguous block (Java's `contains`). */
  predicate IsSubstring(needle: string, hay: string)
    decreases |hay|
  {
    needle <= hay || (hay != [] && IsSubstring(needle, hay[1..]))
  }

  /** `hay.toLowerCase().contains(needle.toLowerCase())`: the lower-cased
      needle sits at some offset of the lower-cased haystack. */
  predicate ContainsIgnoreCase(hay: string, needle: string)
    ensures ContainsIgnoreCase(hay, needle) <==> exists k :: OccursAt(Lower(needle), Lower(hay), k)
  {
    SubstringAt(Lower(needle), Lower(hay));
    IsSubstring(Lower(needle), Lower(hay))
  }

  /** Lower-casing is idempotent, so an already lower-case query matches its original. */
  lemma LowerIdempotent(s: string)
    ensures Lower(Lower(s)) == Lower(s)
    ensures EqualsIgnoreCase(Lower(s), s)
  {
    assert forall i :: 0 <= i < |s| ==> LowerChar(LowerChar(s[i])) == LowerChar(s[i]);
  }

  /** `needle` sits in `hay` at offset `k`. */
  predicate OccursAt(needle: string, hay: string, k: int) {
    0 <= k <= |hay| - |needle| && hay[k..k + |needle|] == needle
  }

  /** `needle` occurs in `hay` exactly when it sits at some offset. */
  lemma {:induction false} SubstringAt(needle: string, hay: string)
    ensures IsSubstring(needle, hay) <==> exists k :: OccursAt(needle, hay, k)
    decreases |hay|
  {
    if needle <= hay {
      assert OccursAt(needle, hay, 0);
    } else if hay == [] {
      assert forall k :: !OccursAt(needle, hay, k);
    } else {
      var tail := hay[1..];
      SubstringAt(needle, tail);
      if k :| OccursAt(needle, tail, k) {
        assert hay[k + 1..k + 1 + |needle|] == tail[k..k + |needle|];
        assert OccursAt(needle, hay, k + 1);
      }
      if k :| OccursAt(needle, hay, k) {
        if k > 0 {
          assert tail[k - 1..k - 1 + |needle|] == hay[k..k + |needle|];
          assert OccursAt(needle, tail, k - 1);
        }
      }
    }
  }

  /** Every string contains the empty string and itself, whatever the case. */
  lemma ContainsTrivial(hay: string, other: string)
    ensures ContainsIgnoreCase(hay, "")
    ensures EqualsIgnoreCase(hay, other) ==> ContainsIgnoreCase(hay, other)
  {
    assert Lower("") == [];
  }
}
