/**
 * String operations the backend relies on, written out over `seq<char>`:
 * `FindFrom` is the scanning step that looks for one literal piece of the
 * chart regex, `Join` is Python's `sep.join(parts)`, and `DeleteAll` is
 * `s.replace(p, "")`. `Count` (Python's `s.count(p)`, which the backend does
 * not call) is there to state how much `replace` removes.
 */
module Text {
  import opened Wrappers

  /** `p` occurs in `s` starting at index `i`. */
  predicate OccursAt(s: string, p: string, i: nat) {
    i + |p| <= |s| && forall j :: 0 <= j < |p| ==> s[i + j] == p[j]
  }

  /** Python's `s.find(p, from)`: the first index at or after `from` where `p` occurs. */
  function FindFrom(s: string, p: string, from: nat): (r: Option<nat>)
    ensures r.Some? ==> from <= r.value && OccursAt(s, p, r.value)
    ensures forall i :: from <= i && (r.None? || i < r.value) ==> !OccursAt(s, p, i)
    decreases |s| - from
  {
    if from + |p| > |s| then None
    else if OccursAt(s, p, from) then Some(from)
    else FindFrom(s, p, from + 1)
  }

  /** The first occurrence at or after `from` is pinned down by its two defining facts. */
  lemma FindFromIs(s: string, p: string, from: nat, i: nat)
    requires from <= i && OccursAt(s, p, i)
    requires forall j :: from <= j < i ==> !OccursAt(s, p, j)
    ensures FindFrom(s, p, from) == Some(i)
  {
  }

  /** `p` cannot start at an index holding a character other than its first. */
  lemma NotOccursAt(s: string, p: string, i: nat)
    requires |p| > 0 && i < |s| && s[i] != p[0]
    ensures !OccursAt(s, p, i)
  {
    if i + |p| <= |s| {
      assert s[i..i + |p|][0] == s[i];
    }
  }

  /** A slice of a slice is a slice of the original. */
  lemma SliceOfSlice(s: string, lo: nat, hi: nat, i: nat, j: nat)
    requires lo <= hi <= |s| && i <= j <= hi - lo
    ensures s[lo..hi][i..j] == s[lo + i..lo + j]
  {
    assert forall k :: 0 <= k < j - i ==> s[lo..hi][i..j][k] == s[lo + i..lo + j][k];
  }

  /** Where `x + y` occurs, `y` occurs right after `x`. */
  lemma OccursAtSecond(s: string, x: string, y: string, i: nat)
    requires OccursAt(s, x + y, i)
    ensures OccursAt(s, y, i + |x|)
  {
    SliceOfSlice(s, i, i + |x + y|, |x|, |x + y|);
    assert (x + y)[|x|..] == y;
  }

  /** In `x + y + z`, the piece `y` sits at offset `|x|`. */
  lemma Middle(s: string, x: string, y: string, z: string)
    requires s == x + y + z
    ensures OccursAt(s, y, |x|)
    ensures forall i :: 0 <= i < |y| ==> s[|x| + i] == y[i]
  {
    assert s[|x|..|x| + |y|] == y;
  }

  /** `p` first occurs at `i` when it occurs there and no earlier index holds its first character. */
  lemma FindFromByFirstChar(s: string, p: string, from: nat, i: nat)
    requires |p| > 0 && from <= i && OccursAt(s, p, i)
    requires forall j :: from <= j < i ==> s[j] != p[0]
    ensures FindFrom(s, p, from) == Some(i)
  {
    forall j | from <= j < i
      ensures !OccursAt(s, p, j)
    {
      NotOccursAt(s, p, j);
    }
    FindFromIs(s, p, from, i);
  }

  /** Searching from the end of `x`, `p` is found right after `y` when no character of `y` starts `p`. */
  lemma FindAfter(x: string, y: string, p: string, z: string)
    requires |p| > 0 && forall i :: 0 <= i < |y| ==> y[i] != p[0]
    ensures FindFrom(x + y + (p + z), p, |x|) == Some(|x| + |y|)
  {
    var s := x + y + (p + z);
    assert s == (x + y) + p + z;
    Middle(s, x + y, p, z);
    Middle(s, x, y, p + z);
    FindFromByFirstChar(s, p, |x|, |x| + |y|);
  }

  /** `p` occurs nowhere in `s`. */
  predicate Avoids(s: string, p: string) {
    forall j: nat :: j <= |s| ==> !OccursAt(s, p, j)
  }

  /** Text before and after a character that `p` lacks: an occurrence cannot span that character. */
  lemma AvoidsAround(x: string, c: char, y: string, p: string)
    requires Avoids(x, p) && Avoids(y, p) && c !in p
    ensures Avoids(x + [c] + y, p)
  {
    var s := x + [c] + y;
    forall j: nat | j <= |s| && j + |p| <= |s|
      ensures !OccursAt(s, p, j)
    {
      if j + |p| <= |x| {
        assert s[j..j + |p|] == x[j..j + |p|];
        assert !OccursAt(x, p, j);
      } else if j > |x| {
        assert s[j..j + |p|] == y[j - |x| - 1..j - |x| - 1 + |p|];
        assert !OccursAt(y, p, j - |x| - 1);
      } else {
        assert s[j..j + |p|][|x| - j] == c != p[|x| - j];
      }
    }
  }

  /** Text holding no first character of `p`, followed by text without `p`, is without `p`. */
  lemma AvoidsAfter(x: string, y: string, p: string)
    requires |p| > 0 && p[0] !in x && Avoids(y, p)
    ensures Avoids(x + y, p)
  {
    var s := x + y;
    forall j: nat | j <= |s| && j + |p| <= |s|
      ensures !OccursAt(s, p, j)
    {
      if j < |x| {
        assert s[j] == x[j];
        NotOccursAt(s, p, j);
      } else {
        assert s[j..j + |p|] == y[j - |x|..j - |x| + |p|];
        assert !OccursAt(y, p, j - |x|);
      }
    }
  }

  /**
   * No occurrence of `p` starts inside `x` in `x + y` when `x` is without `p`
   * and `y`'s first character appears in `p` only at its start.
   */
  lemma AvoidsBefore(x: string, y: string, p: string)
    requires Avoids(x, p) && |y| > 0
    requires forall m :: 0 < m < |p| ==> p[m] != y[0]
    ensures forall j :: 0 <= j < |x| ==> !OccursAt(x + y, p, j)
  {
    var s := x + y;
    forall j | 0 <= j < |x| && j + |p| <= |s|
      ensures !OccursAt(s, p, j)
    {
      if j + |p| <= |x| {
        assert s[j..j + |p|] == x[j..j + |p|];
        assert !OccursAt(x, p, j);
      } else {
        assert s[j..j + |p|][|x| - j] == y[0] != p[|x| - j];
      }
    }
  }

  /** Python's `sep.join(parts)`. */
  function Join(sep: string, parts: seq<string>): (r: string)
    decreases |parts|
  {
    if |parts| == 0 then ""
    else if |parts| == 1 then parts[0]
    else parts[0] + sep + Join(sep, parts[1..])
  }

  /** A join starts with the first character of its first part. */
  lemma JoinStartsWithFirst(sep: string, parts: seq<string>)
    requires |parts| > 0 && |parts[0]| > 0
    ensures |Join(sep, parts)| > 0 && Join(sep, parts)[0] == parts[0][0]
  {
  }

  /** Joining splits at any element: the parts before it, the separator, the element, the separator, the parts after it. */
  lemma {:induction false} JoinAround(sep: string, pre: seq<string>, x: string, post: seq<string>)
    ensures Join(sep, pre + [x] + post)
         == (if pre == [] then "" else Join(sep, pre) + sep) + x + (if post == [] then "" else sep + Join(sep, post))
    decreases |pre|
  {
    if pre == [] {
      assert pre + [x] + post == [x] + post;
      if post != [] {
        assert ([x] + post)[1..] == post;
      }
    } else {
      var parts := pre + [x] + post;
      assert parts[0] == pre[0];
      assert parts[1..] == pre[1..] + [x] + post;
      JoinAround(sep, pre[1..], x, post);
      if |pre| == 1 {
        assert pre[1..] == [];
      }
    }
  }

  /** A character that is in no part and not in the separator is not in the joined string. */
  lemma {:induction false} JoinAvoids(sep: string, parts: seq<string>, c: char)
    requires c !in sep
    requires forall j :: 0 <= j < |parts| ==> c !in parts[j]
    ensures c !in Join(sep, parts)
    decreases |parts|
  {
    if |parts| > 1 {
      JoinAvoids(sep, parts[1..], c);
      assert parts[0] + sep + Join(sep, parts[1..]) == Join(sep, parts);
    }
  }

  /** Parts without `p`, joined by a one-character separator that `p` lacks, give text without `p`. */
  lemma {:induction false} JoinAvoidsPattern(sep: string, parts: seq<string>, p: string)
    requires |p| > 0 && |sep| == 1 && sep[0] !in p
    requires forall j :: 0 <= j < |parts| ==> Avoids(parts[j], p)
    ensures Avoids(Join(sep, parts), p)
    decreases |parts|
  {
    if |parts| > 1 {
      JoinAvoidsPattern(sep, parts[1..], p);
      assert sep == [sep[0]];
      AvoidsAround(parts[0], sep[0], Join(sep, parts[1..]), p);
    }
  }

  /** Python's `s.count(p)` for a non-empty `p`: non-overlapping occurrences, found left to right. */
  function Count(s: string, p: string): nat
    requires |p| > 0
    decreases |s|
  {
    match FindFrom(s, p, 0)
    case None => 0
    case Some(i) => 1 + Count(s[i + |p|..], p)
  }

  /**
   * Python's `s.replace(p, "")` for a non-empty `p`: scanning left to right,
   * every occurrence that does not overlap an earlier removed one is deleted.
   */
  function DeleteAll(s: string, p: string): string
    requires |p| > 0
    decreases |s|
  {
    if |s| < |p| then s
    else if OccursAt(s, p, 0) then DeleteAll(s[|p|..], p)
    else [s[0]] + DeleteAll(s[1..], p)
  }

  /** Characters before the first occurrence of `p` are kept as they are. */
  lemma {:induction false} DeleteAllKeepsPrefix(s: string, p: string, i: nat)
    requires |p| > 0 && i <= |s|
    requires forall j :: 0 <= j < i ==> !OccursAt(s, p, j)
    ensures DeleteAll(s, p) == s[..i] + DeleteAll(s[i..], p)
    decreases i
  {
    if i == 0 {
      TakeDrop(s, 0);
    } else if |s| < |p| {
      TakeDrop(s, i);
    } else {
      var t := s[1..];
      DeleteAllSkipsHead(s, p);
      NotOccursInTail(s, p, i);
      DeleteAllKeepsPrefix(t, p, i - 1);
      ConsSlices(s, i, DeleteAll(s[i..], p));
    }
  }

  /** Without an occurrence at the start, the first character is kept and the scan moves on. */
  lemma DeleteAllSkipsHead(s: string, p: string)
    requires |p| > 0 && |p| <= |s| && !OccursAt(s, p, 0)
    ensures DeleteAll(s, p) == [s[0]] + DeleteAll(s[1..], p)
  {
  }

  /** Cutting a sequence in two and putting the pieces back together gives it back. */
  lemma TakeDrop<T>(s: seq<T>, k: nat)
    requires k <= |s|
    ensures s[..k] + s[k..] == s
  {
  }

  /** The first `i` elements are the head followed by the first `i - 1` of the tail. */
  lemma ConsSlices<T>(s: seq<T>, i: nat, r: seq<T>)
    requires 0 < i <= |s|
    ensures [s[0]] + (s[1..][..i - 1] + r) == s[..i] + r && s[1..][i - 1..] == s[i..]
  {
    assert [s[0]] + s[1..][..i - 1] == s[..i];
  }

  /** Dropping the first character shifts the occurrence-free indices down by one. */
  lemma NotOccursInTail(s: string, p: string, i: nat)
    requires 0 < i <= |s|
    requires forall j :: 0 <= j < i ==> !OccursAt(s, p, j)
    ensures forall j :: 0 <= j < i - 1 ==> !OccursAt(s[1..], p, j)
  {
    var t := s[1..];
    forall j | 0 <= j < i - 1
      ensures !OccursAt(t, p, j)
    {
      assert !OccursAt(s, p, j + 1);
    }
  }

  /** With `p` first occurring at `i`, the text before it is kept, that occurrence goes, and the rest is cleaned the same way. */
  lemma DeleteAllAtFirst(s: string, p: string, i: nat)
    requires |p| > 0
    requires FindFrom(s, p, 0) == Some(i)
    ensures DeleteAll(s, p) == s[..i] + DeleteAll(s[i + |p|..], p)
  {
    DeleteAllKeepsPrefix(s, p, i);
    var t := s[i..];
    assert OccursAt(t, p, 0);
    assert t[|p|..] == s[i + |p|..];
  }

  /** A text in which `p` does not occur comes back unchanged. */
  lemma DeleteAllAbsent(s: string, p: string)
    requires |p| > 0
    requires FindFrom(s, p, 0) == None
    ensures DeleteAll(s, p) == s
  {
    DeleteAllKeepsPrefix(s, p, |s|);
    assert s[..|s|] == s;
  }

  /** Removing all occurrences shortens the text by exactly their number times the length of `p`. */
  lemma {:induction false} DeleteAllLength(s: string, p: string)
    requires |p| > 0
    ensures |DeleteAll(s, p)| + Count(s, p) * |p| == |s|
    decreases |s|
  {
    match FindFrom(s, p, 0)
    case None =>
      DeleteAllAbsent(s, p);
    case Some(i) =>
      var t := s[i + |p|..];
      DeleteAllAtFirst(s, p, i);
      DeleteAllLength(t, p);
      CountAtFirst(s, p, i);
      MulSucc(Count(s, p), Count(t, p), |p|);
  }

  /** With `p` first occurring at `i`, the count is one more than the count after that occurrence. */
  lemma CountAtFirst(s: string, p: string, i: nat)
    requires |p| > 0 && FindFrom(s, p, 0) == Some(i)
    ensures Count(s, p) == 1 + Count(s[i + |p|..], p)
  {
  }

  lemma MulSucc(m: nat, c: nat, n: nat)
    requires m == 1 + c
    ensures m * n == n + c * n
  {
  }

  lemma MulAtLeast(c: nat, n: nat)
    requires c >= 1
    ensures c * n >= n
  {
  }

  /** Where `p` occurs in `s`, `s.count(p)` is positive. */
  lemma CountPositive(s: string, p: string, i: nat)
    requires |p| > 0 && OccursAt(s, p, i)
    ensures Count(s, p) >= 1
  {
  }

  /** `r` can be obtained from `s` by dropping characters while keeping the order of the rest. */
  ghost predicate Subsequence(r: string, s: string)
    decreases |s|
  {
    r == [] || (s != [] && ((r[0] == s[0] && Subsequence(r[1..], s[1..])) || Subsequence(r, s[1..])))
  }

  lemma {:induction false} SubsequenceRefl(s: string)
    ensures Subsequence(s, s)
    decreases |s|
  {
    if s != [] {
      SubsequenceRefl(s[1..]);
    }
  }

  lemma {:induction false} SubsequenceOfSuffix(r: string, s: string, k: nat)
    requires k <= |s| && Subsequence(r, s[k..])
    ensures Subsequence(r, s)
    decreases k
  {
    if k > 0 {
      assert s[1..][k - 1..] == s[k..];
      SubsequenceOfSuffix(r, s[1..], k - 1);
    }
  }

  /** Deleting occurrences keeps every other character in its original order. */
  lemma {:induction false} DeleteAllSubsequence(s: string, p: string)
    requires |p| > 0
    ensures Subsequence(DeleteAll(s, p), s)
    decreases |s|
  {
    if |s| < |p| {
      SubsequenceRefl(s);
    } else if OccursAt(s, p, 0) {
      DeleteAllSubsequence(s[|p|..], p);
      SubsequenceOfSuffix(DeleteAll(s, p), s, |p|);
    } else {
      DeleteAllSubsequence(s[1..], p);
      var r := DeleteAll(s, p);
      assert r[0] == s[0] && r[1..] == DeleteAll(s[1..], p);
    }
  }
}
