/** Character-sequence helpers shared by the path utilities and the settings
    escaping: reversal, the leading run before a separator, splitting on a
    one-character separator, and ASCII lower-casing. */
module Strings {

  /** `s` read back to front, as `s.split("").reverse().join("")` does. */
  function Reverse<T>(s: seq<T>): (r: seq<T>)
    ensures |r| == |s|
    ensures forall i {:trigger r[i]} :: 0 <= i < |s| ==> r[i] == s[|s| - 1 - i]
  {
    if s == [] then [] else Reverse(s[1..]) + [s[0]]
  }

  /** Reversing a prefix of the reversed sequence gives a suffix of the
      original, and keeps the same elements. */
  lemma {:induction false} ReversedPrefix<T>(s: seq<T>, p: seq<T>)
    requires p <= Reverse(s)
    ensures |p| <= |s| && Reverse(p) == s[|s| - |p|..]
    ensures forall x :: x in Reverse(p) ==> x in p
  {
    var rev, q, n, m := Reverse(s), Reverse(p), |p|, |s|;
    forall i | 0 <= i < n
      ensures q[i] == s[m - n + i]
    {
      assert q[i] == p[n - 1 - i] == rev[n - 1 - i];
    }
    forall x | x in q ensures x in p {
      var i :| 0 <= i < n && q[i] == x;
      assert p[n - 1 - i] == x;
    }
  }

  /** The longest prefix of `s` that does not contain `c`: what a regular
      expression `([^c]*)` captures when matched at the start of `s`. */
  function PrefixWithout(s: string, c: char): (r: string)
    ensures r <= s
    ensures c !in r
    ensures |r| < |s| ==> s[|r|] == c
  {
    if s == [] || s[0] == c then [] else [s[0]] + PrefixWithout(s[1..], c)
  }

  /** `seg` is the text after the last `c` in `s` (all of `s` when `s` has
      no `c`): a suffix of `s` without `c`, preceded by `c` or by nothing. */
  ghost predicate IsLastSegment(s: string, c: char, seg: string)
  {
    && |seg| <= |s|
    && seg == s[|s| - |seg|..]
    && c !in seg
    && (|seg| < |s| ==> s[|s| - |seg| - 1] == c)
  }

  /** A string has exactly one last segment. */
  lemma LastSegmentUnique(s: string, c: char, a: string, b: string)
    requires IsLastSegment(s, c, a) && IsLastSegment(s, c, b)
    ensures a == b
  {
  }

  /** The pieces of `s` between occurrences of `c`, as JavaScript's
      `s.split(c)` returns them: never empty, `[""]` for the empty string. */
  function Split(s: string, c: char): (parts: seq<string>)
    ensures |parts| >= 1
    ensures forall i :: 0 <= i < |parts| ==> c !in parts[i]
  {
    if s == [] then [[]]
    else if s[0] == c then [[]] + Split(s[1..], c)
    else
      var rest := Split(s[1..], c);
      [[s[0]] + rest[0]] + rest[1..]
  }

  /** The pieces glued back together with `c` between neighbours. */
  function Join(parts: seq<string>, c: char): string
    requires |parts| >= 1
  {
    if |parts| == 1 then parts[0] else parts[0] + [c] + Join(parts[1..], c)
  }

  /** Splitting and joining on the same separator gives the string back. */
  lemma {:induction false} JoinSplit(s: string, c: char)
    ensures Join(Split(s, c), c) == s
  {
    if s == [] {
    } else if s[0] == c {
      JoinSplit(s[1..], c);
      assert Split(s, c)[1..] == Split(s[1..], c);
      assert s == [c] + s[1..];
    } else {
      var rest := Split(s[1..], c);
      JoinSplit(s[1..], c);
      var parts := Split(s, c);
      assert parts[0] == [s[0]] + rest[0];
      assert parts[1..] == rest[1..];
      if |rest| == 1 {
        assert s == [s[0]] + s[1..];
      } else {
        assert Join(rest, c) == rest[0] + [c] + Join(rest[1..], c);
        assert s == [s[0]] + s[1..];
      }
    }
  }

  /** Joining pieces that contain no separator and splitting again gives the
      same pieces back. */
  lemma {:induction false} SplitJoin(parts: seq<string>, c: char)
    requires |parts| >= 1
    requires forall i :: 0 <= i < |parts| ==> c !in parts[i]
    ensures Split(Join(parts, c), c) == parts
  {
    if |parts| == 1 {
      SplitWithout(parts[0], c);
    } else {
      SplitJoin(parts[1..], c);
      SplitAfterPiece(parts[0], Join(parts[1..], c), c);
      assert parts == [parts[0]] + parts[1..];
    }
  }

  /** A string without the separator splits into itself alone. */
  lemma {:induction false} SplitWithout(s: string, c: char)
    requires c !in s
    ensures Split(s, c) == [s]
  {
    if s != [] {
      SplitWithout(s[1..], c);
      assert s == [s[0]] + s[1..];
    }
  }

  /** A separator-free piece followed by the separator becomes the first
      element of the split, and the split of the rest follows. */
  lemma {:induction false} SplitAfterPiece(piece: string, rest: string, c: char)
    requires c !in piece
    ensures Split(piece + [c] + rest, c) == [piece] + Split(rest, c)
  {
    if piece == [] {
      assert ([] + [c] + rest)[1..] == rest;
    } else {
      SplitAfterPiece(piece[1..], rest, c);
      var s := piece + [c] + rest;
      assert s[0] == piece[0];
      assert s[1..] == piece[1..] + [c] + rest;
      assert piece == [piece[0]] + piece[1..];
    }
  }

  /** The last piece of a split is the text after the last separator. */
  lemma {:induction false} LastOfSplit(s: string, c: char)
    ensures IsLastSegment(s, c, Split(s, c)[|Split(s, c)| - 1])
  {
    if s != [] {
      var rest := Split(s[1..], c);
      LastOfSplit(s[1..], c);
      var seg := rest[|rest| - 1];
      if s[0] == c {
        assert Split(s, c) == [[]] + rest;
        LastSegmentExtend(s, c, seg);
      } else if |rest| == 1 {
        JoinSplit(s[1..], c);
        SplitSingle(s, c);
      } else {
        assert Split(s, c) == [[s[0]] + rest[0]] + rest[1..];
        JoinSplit(s[1..], c);
        JoinHasSeparator(rest, c);
        LastSegmentExtend(s, c, seg);
      }
    }
  }

  /** A last segment of the tail is a last segment of the whole string,
      unless it is the entire tail and the first character is not `c`. */
  lemma {:induction false} LastSegmentExtend(s: string, c: char, seg: string)
    requires s != [] && IsLastSegment(s[1..], c, seg)
    requires s[0] == c || c in s[1..]
    ensures IsLastSegment(s, c, seg)
  {
    assert s[1..][|s[1..]| - |seg|..] == s[|s| - |seg|..];
    if |seg| == |s| - 1 {
      assert seg == s[1..];
    }
  }

  /** A split whose tail has no separator and whose head is not one. */
  lemma {:induction false} SplitSingle(s: string, c: char)
    requires s != [] && s[0] != c
    requires Split(s[1..], c) == [s[1..]]
    ensures Split(s, c) == [s]
    ensures IsLastSegment(s, c, s)
  {
    assert [s[0]] + s[1..] == s;
  }

  lemma {:induction false} JoinHasSeparator(parts: seq<string>, c: char)
    requires |parts| >= 2
    ensures c in Join(parts, c)
  {
    assert Join(parts, c) == parts[0] + [c] + Join(parts[1..], c);
    assert Join(parts, c)[|parts[0]|] == c;
  }

  /** ASCII lower-casing of one character. */
  function LowerChar(ch: char): char
  {
    if 'A' <= ch <= 'Z' then (ch as int - 'A' as int + 'a' as int) as char else ch
  }

  /** ASCII lower-casing of a string, character by character. */
  function ToLower(s: string): (r: string)
    ensures |r| == |s|
    ensures forall i :: 0 <= i < |s| ==> r[i] == LowerChar(s[i])
  {
    seq(|s|, i requires 0 <= i < |s| => LowerChar(s[i]))
  }

  /** Lower-casing never creates or removes a character that is not an
      upper-case ASCII letter, and lower-casing twice changes nothing more. */
  lemma {:induction false} LowerCharFacts(ch: char, c: char)
    requires !('A' <= c <= 'Z') && !('a' <= c <= 'z')
    ensures LowerChar(ch) == c <==> ch == c
    ensures LowerChar(LowerChar(ch)) == LowerChar(ch)
  {
  }

  /** Lower-casing commutes with taking the last segment, for a separator that
      is not a letter. */
  lemma {:induction false} LastSegmentOfLower(s: string, c: char, seg: string)
    requires !('A' <= c <= 'Z') && !('a' <= c <= 'z')
    requires IsLastSegment(s, c, seg)
    ensures IsLastSegment(ToLower(s), c, ToLower(seg))
  {
    var ls, lseg := ToLower(s), ToLower(seg);
    forall i | 0 <= i < |lseg|
      ensures lseg[i] == ls[|ls| - |lseg|..][i]
    {
      assert seg[i] == s[|s| - |seg| + i];
    }
    forall i | 0 <= i < |lseg|
      ensures lseg[i] != c
    {
      LowerCharFacts(seg[i], c);
    }
    if |lseg| < |ls| {
      LowerCharFacts(s[|s| - |seg| - 1], c);
    }
  }

  lemma {:induction false} ToLowerIdempotent(s: string)
    ensures ToLower(ToLower(s)) == ToLower(s)
  {
  }
}
