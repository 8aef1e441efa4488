/**
 * The string plumbing every statement of the copier is built from: Python's
 * `", ".join(...)`, and the inverse operations the proofs use to read a
 * generated statement back.
 */
module SqlText {
  import opened Wrappers

  /** The separator of every list the copier renders. */
  const Sep: string := ", "

  /** `", ".join(parts)`. */
  function Join(parts: seq<string>): string
  {
    if |parts| == 0 then ""
    else if |parts| == 1 then parts[0]
    else parts[0] + Sep + Join(parts[1..])
  }

  /** `s.split(", ")`: the pieces between the occurrences of the separator, left to right. */
  function Split(s: string): (pieces: seq<string>)
    ensures |pieces| >= 1
    decreases |s|
  {
    if |s| < 2 then [s]
    else if SepAt(s, 0) then [""] + Split(s[2..])
    else
      var rest := Split(s[1..]);
      [[s[0]] + rest[0]] + rest[1..]
  }

  /** The separator occurs in `s` at index `i`. */
  predicate SepAt(s: string, i: int)
  {
    0 <= i < |s| - 1 && s[i] == Sep[0] && s[i + 1] == Sep[1]
  }

  /** `s` holds no occurrence of the separator. */
  predicate NoSep(s: string)
  {
    forall i :: 0 <= i < |s| ==> !SepAt(s, i)
  }

  lemma CommaFreeNoSep(s: string)
    requires ',' !in s
    ensures NoSep(s)
  {
  }

  lemma NoSepTail(s: string)
    requires |s| > 0 && NoSep(s)
    ensures NoSep(s[1..])
  {
    forall i | 0 <= i < |s[1..]|
      ensures !SepAt(s[1..], i)
    {
      assert SepAt(s[1..], i) ==> SepAt(s, i + 1);
    }
  }

  /** A separator-free string splits into itself alone. */
  lemma {:induction false} SplitNoSep(s: string)
    requires NoSep(s)
    ensures Split(s) == [s]
    decreases |s|
  {
    if |s| >= 2 {
      assert !SepAt(s, 0);
      NoSepTail(s);
      SplitNoSep(s[1..]);
      assert [s[0]] + s[1..] == s;
    }
  }

  /** The first separator after a separator-free piece ends that piece. */
  lemma {:induction false} SplitAfterPiece(piece: string, rest: string)
    requires NoSep(piece)
    ensures Split(piece + Sep + rest) == [piece] + Split(rest)
    decreases |piece|
  {
    var s := piece + Sep + rest;
    if |piece| == 0 {
      assert s == Sep + rest;
      assert SepAt(s, 0) && s[2..] == rest;
    } else {
      if |piece| >= 2 {
        assert !SepAt(piece, 0);
      } else {
        assert s[1] == ',';
      }
      assert !SepAt(s, 0);
      NoSepTail(piece);
      SplitAfterPiece(piece[1..], rest);
      assert s[1..] == piece[1..] + Sep + rest;
      assert [piece[0]] + piece[1..] == piece;
    }
  }

  /** Splitting undoes joining, for a non-empty list of separator-free parts. */
  lemma {:induction false} SplitJoin(parts: seq<string>)
    requires |parts| >= 1
    requires forall k :: 0 <= k < |parts| ==> NoSep(parts[k])
    ensures Split(Join(parts)) == parts
    decreases |parts|
  {
    if |parts| == 1 {
      SplitNoSep(parts[0]);
    } else {
      SplitAfterPiece(parts[0], Join(parts[1..]));
      SplitJoin(parts[1..]);
      assert [parts[0]] + parts[1..] == parts;
    }
  }

  /** The parts of `s` before and after the first occurrence of `c`. */
  function SplitAtFirst(s: string, c: char): (r: Option<(string, string)>)
    ensures r.None? <==> c !in s
    ensures r.Some? ==> s == r.value.0 + [c] + r.value.1 && c !in r.value.0
  {
    if |s| == 0 then None
    else if s[0] == c then Some(([], s[1..]))
    else
      match SplitAtFirst(s[1..], c)
      case None => None
      case Some((before, after)) =>
        assert s == [s[0]] + s[1..];
        Some(([s[0]] + before, after))
  }

  lemma {:induction false} SplitAtFirstOf(before: string, c: char, after: string)
    requires c !in before
    ensures SplitAtFirst(before + [c] + after, c) == Some((before, after))
    decreases |before|
  {
    var s := before + [c] + after;
    if |before| > 0 {
      assert s[1..] == before[1..] + [c] + after;
      SplitAtFirstOf(before[1..], c, after);
      assert [before[0]] + before[1..] == before;
    } else {
      assert s[1..] == after;
    }
  }

  /** The parts of `s` before and after the last occurrence of `c`. */
  function SplitAtLast(s: string, c: char): (r: Option<(string, string)>)
    ensures r.None? <==> c !in s
    ensures r.Some? ==> s == r.value.0 + [c] + r.value.1 && c !in r.value.1
  {
    if |s| == 0 then None
    else if s[|s| - 1] == c then Some((s[..|s| - 1], []))
    else
      match SplitAtLast(s[..|s| - 1], c)
      case None => None
      case Some((before, after)) =>
        assert s == s[..|s| - 1] + [s[|s| - 1]];
        Some((before, after + [s[|s| - 1]]))
  }

  lemma {:induction false} SplitAtLastOf(before: string, c: char, after: string)
    requires c !in after
    ensures SplitAtLast(before + [c] + after, c) == Some((before, after))
    decreases |after|
  {
    var s := before + [c] + after;
    if |after| > 0 {
      var n := |after| - 1;
      assert s[..|s| - 1] == before + [c] + after[..n];
      assert s[|s| - 1] == after[n];
      SplitAtLastOf(before, c, after[..n]);
      assert after[..n] + [after[n]] == after;
    } else {
      assert s[..|s| - 1] == before;
    }
  }

  /** `suffix` ends `s`. */
  predicate EndsWith(s: string, suffix: string)
  {
    |suffix| <= |s| && s[|s| - |suffix|..] == suffix
  }

  /** The number of occurrences of `c` in `s`. */
  function Count(c: char, s: string): nat
  {
    if |s| == 0 then 0
    else (if s[0] == c then 1 else 0) + Count(c, s[1..])
  }

  lemma {:induction false} CountConcat(c: char, a: string, b: string)
    ensures Count(c, a + b) == Count(c, a) + Count(c, b)
    decreases |a|
  {
    if |a| == 0 {
      assert a + b == b;
    } else {
      assert (a + b)[1..] == a[1..] + b;
      CountConcat(c, a[1..], b);
    }
  }
}
