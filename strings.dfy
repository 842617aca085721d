/** The handful of Python string operations the monitor relies on:
    substring search (`p in s`), `s.split(sep)`, `sep.join(parts)` and
    `s.replace(c, d)` for single characters. */
module Strings {
  import opened Wrappers

  /** `p` occurs in `s` starting at index `i`. */
  ghost predicate OccursAt(s: string, p: string, i: nat) {
    i + |p| <= |s| && s[i..i + |p|] == p
  }

  /** The least index at or after `from` at which `p` occurs in `s`. */
  function FindFrom(s: string, p: string, from: nat): (r: Option<nat>)
    ensures r.Some? ==> from <= r.value && OccursAt(s, p, r.value)
    ensures r.Some? ==> forall j: nat :: from <= j < r.value ==> !OccursAt(s, p, j)
    ensures r.None? ==> forall j: nat :: from <= j ==> !OccursAt(s, p, j)
    decreases |s| + 1 - from
  {
    if from + |p| > |s| then None
    else if s[from..from + |p|] == p then Some(from)
    else FindFrom(s, p, from + 1)
  }

  /** Python's `p in s`. */
  predicate Contains(s: string, p: string)
  {
    FindFrom(s, p, 0).Some?
  }

  /** `p in s` holds exactly when `p` occurs in `s` at some index. */
  lemma ContainsOccurs(s: string, p: string)
    ensures Contains(s, p) <==> exists i: nat :: OccursAt(s, p, i)
  {
    var f := FindFrom(s, p, 0);
    if f.Some? {
      assert OccursAt(s, p, f.value);
    }
  }

  /** An occurrence at `i` with none before it is what `FindFrom(s, p, 0)` finds. */
  lemma FindFirst(s: string, p: string, i: nat)
    requires OccursAt(s, p, i)
    requires forall j: nat :: j < i ==> !OccursAt(s, p, j)
    ensures FindFrom(s, p, 0) == Some(i)
  {
  }

  /** An occurrence inside a slice is an occurrence in the whole string. */
  lemma OccursInSlice(s: string, p: string, a: nat, b: nat, k: nat)
    requires a <= b <= |s|
    requires OccursAt(s[a..b], p, k)
    ensures OccursAt(s, p, a + k)
  {
    var u := s[a..b];
    assert forall m :: k <= m < k + |p| ==> u[m] == s[a + m];
    assert forall m :: 0 <= m < |p| ==> p[m] == s[a + k + m];
  }

  /** Python's `s.split(sep)`: the pieces between the leftmost
      non-overlapping occurrences of `sep`. */
  function Split(s: string, sep: string): (r: seq<string>)
    requires sep != []
    ensures |r| >= 1
    ensures Contains(s, sep) ==> |r| >= 2
    ensures !Contains(s, sep) ==> r == [s]
    decreases |s|
  {
    match FindFrom(s, sep, 0)
    case None => [s]
    case Some(i) => [s[..i]] + Split(s[i + |sep|..], sep)
  }

  /** Python's `sep.join(parts)`: the parts with one separator between
      each neighbouring pair. */
  function Join(parts: seq<string>, sep: string): (r: string)
    ensures parts == [] ==> r == ""
    ensures |parts| == 1 ==> r == parts[0]
    ensures parts != [] ==> parts[0] <= r
    ensures |parts| >= 2 ==> parts[0] + sep <= r
  {
    if |parts| == 0 then ""
    else if |parts| == 1 then parts[0]
    else parts[0] + sep + Join(parts[1..], sep)
  }

  /** A prefix that ends before the first occurrence holds none. */
  lemma PrefixFree(s: string, p: string, i: nat)
    requires p != [] && i <= |s|
    requires forall j: nat :: j < i ==> !OccursAt(s, p, j)
    ensures !Contains(s[..i], p)
  {
    var f := FindFrom(s[..i], p, 0);
    if f.Some? {
      OccursInSlice(s, p, 0, i, f.value);
    }
  }

  /** The first piece of a split holds no separator and is followed either
      by nothing or by the separator and the text the rest of the split
      comes from. */
  lemma FirstPiece(s: string, sep: string) returns (after: string)
    requires sep != []
    ensures s == Split(s, sep)[0] + after
    ensures !Contains(Split(s, sep)[0], sep)
    ensures after == [] || (|sep| <= |after| && after[..|sep|] == sep)
    ensures !Contains(s, sep) ==> after == []
    ensures Contains(s, sep) ==>
      after != [] && Split(s, sep)[1..] == Split(after[|sep|..], sep)
  {
    var f := FindFrom(s, sep, 0);
    if f.None? {
      after := [];
    } else {
      var i := f.value;
      after := s[i..];
      PrefixFree(s, sep, i);
      assert s == s[..i] + after;
      assert after[|sep|..] == s[i + |sep|..];
    }
  }

  /** Joining the pieces of a split gives back the original string. */
  lemma {:induction false} JoinSplit(s: string, sep: string)
    requires sep != []
    ensures Join(Split(s, sep), sep) == s
    decreases |s|
  {
    var after := FirstPiece(s, sep);
    if Contains(s, sep) {
      var rest := after[|sep|..];
      JoinSplit(rest, sep);
      assert after == sep + rest;
    }
  }

  /** No piece of a split contains the separator. */
  lemma {:induction false} SplitPiecesFree(s: string, sep: string)
    requires sep != []
    ensures forall k :: 0 <= k < |Split(s, sep)| ==> !Contains(Split(s, sep)[k], sep)
    decreases |s|
  {
    var after := FirstPiece(s, sep);
    if Contains(s, sep) {
      SplitPiecesFree(after[|sep|..], sep);
    }
  }

  /** When `sep` occurs in `s`, the second piece of the split is the text
      between the first occurrence and the next one (or the end). */
  lemma SecondPiece(s: string, sep: string) returns (before: string, after: string)
    requires sep != [] && Contains(s, sep)
    ensures |Split(s, sep)| >= 2
    ensures s == before + sep + Split(s, sep)[1] + after
    ensures before == Split(s, sep)[0]
    ensures !Contains(before, sep) && !Contains(Split(s, sep)[1], sep)
    ensures after == [] || (|sep| <= |after| && after[..|sep|] == sep)
  {
    var first := FirstPiece(s, sep);
    var rest := first[|sep|..];
    after := FirstPiece(rest, sep);
    before := Split(s, sep)[0];
    var mid := Split(rest, sep)[0];
    assert Split(s, sep)[1] == mid by {
      assert Split(s, sep)[1..] == Split(rest, sep);
    }
    Regroup(s, before, first, sep, rest, mid, after);
  }

  /** Regrouping a three-step decomposition of a string. */
  lemma Regroup(s: string, before: string, first: string, sep: string, rest: string, mid: string, after: string)
    requires s == before + first && |sep| <= |first| && first[..|sep|] == sep
    requires rest == first[|sep|..] && rest == mid + after
    ensures s == before + sep + mid + after
  {
    assert first == sep + rest;
  }

  /** Appending one more part to a non-empty join. */
  lemma {:induction false} JoinAppend(parts: seq<string>, x: string, sep: string)
    requires parts != []
    ensures Join(parts + [x], sep) == Join(parts, sep) + sep + x
    decreases |parts|
  {
    var longer := parts + [x];
    assert longer[0] == parts[0] && longer[1..] == parts[1..] + [x];
    if |parts| > 1 {
      JoinAppend(parts[1..], x, sep);
      calc {
        Join(longer, sep);
        parts[0] + sep + Join(parts[1..] + [x], sep);
        parts[0] + sep + (Join(parts[1..], sep) + sep + x);
        (parts[0] + sep + Join(parts[1..], sep)) + sep + x;
      }
    } else {
      assert longer[1..] == [x];
    }
  }

  /** `sep` has no border: no proper prefix of it is also a suffix, so two
      occurrences of it can never overlap. */
  ghost predicate Unbordered(sep: string) {
    forall t :: 0 < t < |sep| ==> sep[t..] != sep[..|sep| - t]
  }

  /** For an unbordered separator, the leftmost occurrence in
      `x + sep + rest` is the separator right after `x` when `x` has none. */
  lemma FindAfterFreePart(x: string, sep: string, rest: string)
    requires sep != [] && Unbordered(sep) && !Contains(x, sep)
    ensures FindFrom(x + sep + rest, sep, 0) == Some(|x|)
  {
    var s := x + sep + rest;
    assert s[|x|..|x| + |sep|] == sep;
    forall j: nat | j < |x|
      ensures !OccursAt(s, sep, j)
    {
      if j + |sep| <= |x| {
        assert s[j..j + |sep|] == x[j..j + |sep|];
        assert !OccursAt(x, sep, j);
      } else {
        var t := |x| - j;
        assert s[j..j + |sep|][t..] == sep[..|sep| - t];
      }
    }
    FindFirst(s, sep, |x|);
  }

  /** Splitting a join gives back the parts when none of them contains the
      (unbordered) separator. */
  lemma {:induction false} SplitJoin(parts: seq<string>, sep: string)
    requires sep != [] && Unbordered(sep) && parts != []
    requires forall k :: 0 <= k < |parts| ==> !Contains(parts[k], sep)
    ensures Split(Join(parts, sep), sep) == parts
    decreases |parts|
  {
    if |parts| == 1 {
    } else {
      var rest := Join(parts[1..], sep);
      FindAfterFreePart(parts[0], sep, rest);
      SplitJoin(parts[1..], sep);
      var s := parts[0] + sep + rest;
      assert s[..|parts[0]|] == parts[0];
      assert s[|parts[0]| + |sep|..] == rest;
    }
  }

  /** Python's `s.replace(from, to)` for single characters. */
  function ReplaceChar(s: string, from: char, to: char): (r: string)
    ensures |r| == |s|
    ensures forall i :: 0 <= i < |s| ==> r[i] == if s[i] == from then to else s[i]
  {
    if s == [] then [] else [if s[0] == from then to else s[0]] + ReplaceChar(s[1..], from, to)
  }

  /** After the replacement the replaced character is gone, and a second
      replacement changes nothing. */
  lemma ReplaceCharRemoves(s: string, from: char, to: char)
    requires from != to
    ensures from !in ReplaceChar(s, from, to)
    ensures ReplaceChar(ReplaceChar(s, from, to), from, to) == ReplaceChar(s, from, to)
  {
  }
}
