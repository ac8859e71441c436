/**
 * The JavaScript string built-ins the bot relies on, written out:
 * `String.prototype.trim`, `split` on a one-character separator, `Array.prototype.join`,
 * and the line terminators that the regular-expression `.` refuses to match.
 * Strings are sequences of characters.
 */
module JsText {

  /** The characters `trim()` removes: ECMAScript WhiteSpace and LineTerminator code points. */
  predicate IsWhiteSpace(c: char) {
    var n := c as int;
    n == 0x09 || n == 0x0A || n == 0x0B || n == 0x0C || n == 0x0D || n == 0x20 || n == 0xA0
    || n == 0x1680 || (0x2000 <= n <= 0x200A) || n == 0x2028 || n == 0x2029
    || n == 0x202F || n == 0x205F || n == 0x3000 || n == 0xFEFF
  }

  /** The characters a regular-expression `.` does not match (no `s` flag). */
  predicate IsLineTerminator(c: char) {
    c == '\n' || c == '\r' || c as int == 0x2028 || c as int == 0x2029
  }

  /** Every character of `s` is white space (vacuously so for ""). */
  predicate IsBlank(s: string) {
    forall i :: 0 <= i < |s| ==> IsWhiteSpace(s[i])
  }

  /** Drops leading white space: the result is the suffix of `s` that starts at its first other character. */
  function TrimStart(s: string): (r: string)
    ensures |r| <= |s| && r == s[|s| - |r|..]
    ensures forall i :: 0 <= i < |s| - |r| ==> IsWhiteSpace(s[i])
    ensures r == [] || !IsWhiteSpace(r[0])
  {
    if |s| > 0 && IsWhiteSpace(s[0]) then
      var r := TrimStart(s[1..]);
      assert forall i :: 1 <= i < |s| ==> s[1..][i - 1] == s[i];
      r
    else s
  }

  /** Drops trailing white space: the result is the prefix of `s` that ends at its last other character. */
  function TrimEnd(s: string): (r: string)
    ensures |r| <= |s| && r == s[..|r|]
    ensures forall i :: |r| <= i < |s| ==> IsWhiteSpace(s[i])
    ensures r == [] || !IsWhiteSpace(r[|r| - 1])
  {
    if |s| > 0 && IsWhiteSpace(s[|s| - 1]) then
      var r := TrimEnd(s[..|s| - 1]);
      assert forall i :: 0 <= i < |s| - 1 ==> s[..|s| - 1][i] == s[i];
      r
    else s
  }

  /** `s.trim()`: the slice of `s` left once the white space at both ends is dropped. */
  function Trim(s: string): (r: string)
    ensures var k := |s| - |TrimStart(s)|;
            k + |r| <= |s| && r == s[k..][..|r|]
            && (forall i :: 0 <= i < k ==> IsWhiteSpace(s[i]))
            && (forall i :: k + |r| <= i < |s| ==> IsWhiteSpace(s[i]))
    ensures r == [] || (!IsWhiteSpace(r[0]) && !IsWhiteSpace(r[|r| - 1]))
  {
    TrimEnd(TrimStart(s))
  }

  /** Number of occurrences of `c` in `s`. */
  function Count(s: string, c: char): nat {
    if s == [] then 0 else (if s[0] == c then 1 else 0) + Count(s[1..], c)
  }

  /** `s.split(sep)` for a one-character separator: the maximal runs between separators, in order;
      always at least one piece, and one more than there are separators. */
  function Split(s: string, sep: char): (parts: seq<string>)
    ensures |parts| == Count(s, sep) + 1
    ensures forall i :: 0 <= i < |parts| ==> sep !in parts[i]
  {
    if s == [] then [""]
    else
      var rest := Split(s[1..], sep);
      if s[0] == sep then [""] + rest
      else [[s[0]] + rest[0]] + rest[1..]
  }

  /** `parts.join(sep)` for a one-character separator. */
  function Join(parts: seq<string>, sep: char): string {
    if |parts| == 0 then ""
    else if |parts| == 1 then parts[0]
    else parts[0] + [sep] + Join(parts[1..], sep)
  }

  /** Joining the pieces of a split with the same separator gives back the string. */
  lemma {:induction false} JoinSplit(s: string, sep: char)
    ensures Join(Split(s, sep), sep) == s
  {
    if s != [] {
      var rest := Split(s[1..], sep);
      JoinSplit(s[1..], sep);
      if s[0] == sep {
        assert ([""] + rest)[1..] == rest;
      } else if |rest| > 1 {
        var parts := [[s[0]] + rest[0]] + rest[1..];
        assert parts[1..] == rest[1..];
        assert Join(rest, sep) == rest[0] + [sep] + Join(rest[1..], sep);
      }
    }
  }

  /** Splitting a separator-free `head` followed by a separator and `tail`. */
  lemma {:induction false} SplitAtSeparator(head: string, tail: string, sep: char)
    requires sep !in head
    ensures Split(head + [sep] + tail, sep) == [head] + Split(tail, sep)
  {
    if head == [] {
      assert head + [sep] + tail == [sep] + tail;
      assert ([sep] + tail)[1..] == tail;
    } else {
      assert (head + [sep] + tail)[1..] == head[1..] + [sep] + tail;
      SplitAtSeparator(head[1..], tail, sep);
      assert [head[0]] + head[1..] == head;
    }
  }

  /** Splitting a separator-free string gives that string alone. */
  lemma {:induction false} SplitWithoutSeparator(s: string, sep: char)
    requires sep !in s
    ensures Split(s, sep) == [s]
  {
    if s != [] {
      SplitWithoutSeparator(s[1..], sep);
      assert [s[0]] + s[1..] == s;
    }
  }

  /** Splitting a join of separator-free pieces gives back the pieces. */
  lemma {:induction false} SplitJoin(parts: seq<string>, sep: char)
    requires |parts| >= 1
    requires forall i :: 0 <= i < |parts| ==> sep !in parts[i]
    ensures Split(Join(parts, sep), sep) == parts
  {
    if |parts| == 1 {
      SplitWithoutSeparator(parts[0], sep);
    } else {
      SplitJoin(parts[1..], sep);
      SplitAtSeparator(parts[0], Join(parts[1..], sep), sep);
      assert [parts[0]] + parts[1..] == parts;
    }
  }

  /** `xs.filter(keep)`: the elements for which `keep` holds, in their original order. */
  function Filter<T(!new)>(xs: seq<T>, keep: T -> bool): (kept: seq<T>)
    ensures |kept| <= |xs|
    ensures forall i :: 0 <= i < |kept| ==> keep(kept[i])
  {
    if xs == [] then []
    else if keep(xs[0]) then [xs[0]] + Filter(xs[1..], keep)
    else Filter(xs[1..], keep)
  }

  /** An element is kept exactly when it occurs in the input and satisfies `keep`. */
  lemma {:induction false} FilterMembership<T(!new)>(xs: seq<T>, keep: T -> bool)
    ensures forall x :: x in Filter(xs, keep) <==> x in xs && keep(x)
  {
    if xs != [] {
      FilterMembership(xs[1..], keep);
      assert xs == [xs[0]] + xs[1..];
    }
  }

  /** Filtering a concatenation filters each part: the kept elements stay in their relative order. */
  lemma {:induction false} FilterConcat<T(!new)>(a: seq<T>, b: seq<T>, keep: T -> bool)
    ensures Filter(a + b, keep) == Filter(a, keep) + Filter(b, keep)
  {
    if a == [] {
      assert a + b == b;
    } else {
      assert (a + b)[1..] == a[1..] + b;
      FilterConcat(a[1..], b, keep);
    }
  }

  /** Every position of `idx` moved one place to the right. */
  function Shifted(idx: seq<nat>): (r: seq<nat>)
    ensures |r| == |idx|
    ensures forall k :: 0 <= k < |r| ==> r[k] == idx[k] + 1
  {
    if idx == [] then [] else [idx[0] + 1] + Shifted(idx[1..])
  }

  /** The kept elements sit at strictly increasing positions of the input, and no element
      satisfying `keep` is skipped. */
  lemma {:induction false} FilterPositions<T(!new)>(xs: seq<T>, keep: T -> bool) returns (idx: seq<nat>)
    ensures |idx| == |Filter(xs, keep)|
    ensures forall k :: 0 <= k < |idx| ==> idx[k] < |xs| && Filter(xs, keep)[k] == xs[idx[k]]
    ensures forall k, m :: 0 <= k < m < |idx| ==> idx[k] < idx[m]
    ensures forall i :: 0 <= i < |xs| && keep(xs[i]) ==> i in idx
  {
    if xs == [] {
      idx := [];
    } else {
      var rest := FilterPositions(xs[1..], keep);
      var tail := Filter(xs[1..], keep);
      assert Filter(xs, keep) == (if keep(xs[0]) then [xs[0]] + tail else tail);
      idx := ExtendPositions(xs, keep, tail, rest);
    }
  }

  /** The inductive step of `FilterPositions`: positions of the kept `tail` in `xs[1..]` give
      positions in `xs` of what is kept from `xs`. */
  lemma ExtendPositions<T(!new)>(xs: seq<T>, keep: T -> bool, tail: seq<T>, rest: seq<nat>) returns (idx: seq<nat>)
    requires |xs| > 0 && |rest| == |tail|
    requires forall k :: 0 <= k < |rest| ==> rest[k] < |xs| - 1 && tail[k] == xs[1..][rest[k]]
    requires forall k, m :: 0 <= k < m < |rest| ==> rest[k] < rest[m]
    requires forall i :: 0 <= i < |xs| - 1 && keep(xs[1..][i]) ==> i in rest
    ensures var kept := if keep(xs[0]) then [xs[0]] + tail else tail;
            |idx| == |kept|
            && (forall k :: 0 <= k < |idx| ==> idx[k] < |xs| && kept[k] == xs[idx[k]])
            && (forall k, m :: 0 <= k < m < |idx| ==> idx[k] < idx[m])
            && (forall i :: 0 <= i < |xs| && keep(xs[i]) ==> i in idx)
  {
    var shifted := Shifted(rest);
    ShiftPositions(xs, tail, rest);
    ShiftCovers(xs, keep, rest);
    if keep(xs[0]) {
      idx := [0] + shifted;
      PrependPosition(xs, keep, tail, shifted);
    } else {
      idx := shifted;
      SkipPosition(xs, keep, tail, idx);
    }
  }

  /** Positions in `xs[1..]` become positions in `xs` once shifted by one. */
  lemma ShiftPositions<T>(xs: seq<T>, tail: seq<T>, rest: seq<nat>)
    requires |xs| > 0 && |rest| == |tail|
    requires forall k :: 0 <= k < |rest| ==> rest[k] < |xs| - 1 && tail[k] == xs[1..][rest[k]]
    requires forall k, m :: 0 <= k < m < |rest| ==> rest[k] < rest[m]
    ensures forall k :: 0 <= k < |rest| ==> 0 < Shifted(rest)[k] < |xs| && tail[k] == xs[Shifted(rest)[k]]
    ensures forall k, m :: 0 <= k < m < |rest| ==> Shifted(rest)[k] < Shifted(rest)[m]
  {
    var shifted := Shifted(rest);
    forall k | 0 <= k < |rest| ensures 0 < shifted[k] < |xs| && tail[k] == xs[shifted[k]] {
      assert xs[1..][rest[k]] == xs[rest[k] + 1];
    }
  }

  /** Shifting keeps every position of `xs[1..]` that satisfies `keep` covered. */
  lemma ShiftCovers<T(!new)>(xs: seq<T>, keep: T -> bool, rest: seq<nat>)
    requires |xs| > 0
    requires forall i :: 0 <= i < |xs| - 1 && keep(xs[1..][i]) ==> i in rest
    ensures forall i :: 0 < i < |xs| && keep(xs[i]) ==> i in Shifted(rest)
  {
    var shifted := Shifted(rest);
    forall i | 0 < i < |xs| && keep(xs[i]) ensures i in shifted {
      assert xs[1..][i - 1] == xs[i];
      var k :| 0 <= k < |rest| && rest[k] == i - 1;
      assert shifted[k] == i;
    }
  }

  /** Putting position 0 in front of shifted positions, when `xs[0]` is kept. */
  lemma PrependPosition<T(!new)>(xs: seq<T>, keep: T -> bool, tail: seq<T>, shifted: seq<nat>)
    requires |xs| > 0 && keep(xs[0]) && |tail| == |shifted|
    requires forall k :: 0 <= k < |shifted| ==> 0 < shifted[k] < |xs| && tail[k] == xs[shifted[k]]
    requires forall k, m :: 0 <= k < m < |shifted| ==> shifted[k] < shifted[m]
    requires forall i :: 0 < i < |xs| && keep(xs[i]) ==> i in shifted
    ensures var kept := [xs[0]] + tail;
            var idx := [0] + shifted;
            |idx| == |kept|
            && (forall k :: 0 <= k < |idx| ==> idx[k] < |xs| && kept[k] == xs[idx[k]])
            && (forall k, m :: 0 <= k < m < |idx| ==> idx[k] < idx[m])
            && (forall i :: 0 <= i < |xs| && keep(xs[i]) ==> i in idx)
  {
  }

  /** Shifted positions alone, when `xs[0]` is dropped. */
  lemma SkipPosition<T(!new)>(xs: seq<T>, keep: T -> bool, kept: seq<T>, shifted: seq<nat>)
    requires |xs| > 0 && !keep(xs[0]) && |kept| == |shifted|
    requires forall k :: 0 <= k < |shifted| ==> 0 < shifted[k] < |xs| && kept[k] == xs[shifted[k]]
    requires forall i :: 0 < i < |xs| && keep(xs[i]) ==> i in shifted
    ensures forall k :: 0 <= k < |kept| ==> shifted[k] < |xs| && kept[k] == xs[shifted[k]]
    ensures forall i :: 0 <= i < |xs| && keep(xs[i]) ==> i in shifted
  {
  }

  /** A filter that finds nothing to drop changes nothing. */
  lemma {:induction false} FilterKeepsAll<T(!new)>(xs: seq<T>, keep: T -> bool)
    requires forall i :: 0 <= i < |xs| ==> keep(xs[i])
    ensures Filter(xs, keep) == xs
  {
    if xs != [] {
      FilterKeepsAll(xs[1..], keep);
    }
  }
}
