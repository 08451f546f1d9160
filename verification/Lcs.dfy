/** Longest common subsequence of two block lists, as used to align one side of a merge with its base. */
module Lcs {
  import opened Sequences

  /** An index pair (i, j) says: block i of the first list is matched with block j of the second. */
  type Pair = (nat, nat)

  /** `pairs` picks a common subsequence of the first `n` blocks of `a` and the first `m` blocks of `b`. */
  ghost predicate CommonWithin<T>(a: seq<T>, b: seq<T>, n: nat, m: nat, pairs: seq<Pair>)
    requires n <= |a| && m <= |b|
  {
    && (forall k :: 0 <= k < |pairs| ==> pairs[k].0 < n && pairs[k].1 < m && a[pairs[k].0] == b[pairs[k].1])
    && (forall k, l :: 0 <= k < l < |pairs| ==> pairs[k].0 < pairs[l].0 && pairs[k].1 < pairs[l].1)
  }

  ghost predicate CommonSubsequence<T>(a: seq<T>, b: seq<T>, pairs: seq<Pair>) {
    CommonWithin(a, b, |a|, |b|, pairs)
  }

  /** `s` occurs in `a` at the strictly increasing positions `at`. */
  ghost predicate EmbedsAt<T>(s: seq<T>, a: seq<T>, at: seq<nat>) {
    && |at| == |s|
    && (forall k :: 0 <= k < |s| ==> at[k] < |a| && a[at[k]] == s[k])
    && (forall k, l :: 0 <= k < l < |s| ==> at[k] < at[l])
  }

  function Max(x: nat, y: nat): nat {
    if x >= y then x else y
  }

  /** The recurrence that the table is filled by: entry (i, j) speaks about the first i and j blocks. */
  function Table<T(==)>(a: seq<T>, b: seq<T>, i: nat, j: nat): nat
    requires i <= |a| && j <= |b|
  {
    if i == 0 || j == 0 then 0
    else if a[i - 1] == b[j - 1] then Table(a, b, i - 1, j - 1) + 1
    else Max(Table(a, b, i - 1, j), Table(a, b, i, j - 1))
  }

  /** The traceback from entry (i, j), in ascending order. */
  function Trace<T(==)>(a: seq<T>, b: seq<T>, i: nat, j: nat): seq<Pair>
    requires i <= |a| && j <= |b|
    decreases i + j
  {
    if i == 0 || j == 0 then []
    else if a[i - 1] == b[j - 1] then Trace(a, b, i - 1, j - 1) + [(i - 1, j - 1)]
    else if Table(a, b, i - 1, j) >= Table(a, b, i, j - 1) then Trace(a, b, i - 1, j)
    else Trace(a, b, i, j - 1)
  }

  function LcsPairs<T(==)>(a: seq<T>, b: seq<T>): seq<Pair> {
    Trace(a, b, |a|, |b|)
  }

  lemma EmptyIsCommon<T>(a: seq<T>, b: seq<T>, i: nat, j: nat)
    requires i <= |a| && j <= |b|
    ensures CommonWithin(a, b, i, j, [])
  {
  }

  lemma CommonExtends<T>(a: seq<T>, b: seq<T>, i: nat, j: nat, pairs: seq<Pair>)
    requires 0 < i <= |a| && 0 < j <= |b| && a[i - 1] == b[j - 1] && CommonWithin(a, b, i - 1, j - 1, pairs)
    ensures CommonWithin(a, b, i, j, pairs + [(i - 1, j - 1)])
  {
  }

  lemma CommonWidens<T>(a: seq<T>, b: seq<T>, i: nat, j: nat, n: nat, m: nat, pairs: seq<Pair>)
    requires i <= n <= |a| && j <= m <= |b| && CommonWithin(a, b, i, j, pairs)
    ensures CommonWithin(a, b, n, m, pairs)
  {
  }

  lemma TraceStep<T>(a: seq<T>, b: seq<T>, i: nat, j: nat)
    requires 0 < i <= |a| && 0 < j <= |b|
    ensures Trace(a, b, i, j) ==
      if a[i - 1] == b[j - 1] then Trace(a, b, i - 1, j - 1) + [(i - 1, j - 1)]
      else if Table(a, b, i - 1, j) >= Table(a, b, i, j - 1) then Trace(a, b, i - 1, j) else Trace(a, b, i, j - 1)
    ensures Table(a, b, i, j) ==
      if a[i - 1] == b[j - 1] then Table(a, b, i - 1, j - 1) + 1 else Max(Table(a, b, i - 1, j), Table(a, b, i, j - 1))
  {
  }

  lemma TraceOfNone<T>(a: seq<T>, b: seq<T>, i: nat, j: nat)
    requires i <= |a| && j <= |b| && (i == 0 || j == 0)
    ensures Trace(a, b, i, j) == [] && Table(a, b, i, j) == 0
  {
  }

  lemma {:induction false} TraceLength<T>(a: seq<T>, b: seq<T>, i: nat, j: nat)
    requires i <= |a| && j <= |b|
    ensures |Trace(a, b, i, j)| == Table(a, b, i, j)
    decreases i + j
  {
    hide Trace, Table;
    if i == 0 || j == 0 {
      TraceOfNone(a, b, i, j);
    } else {
      TraceStep(a, b, i, j);
      TraceLength(a, b, i - 1, j - 1);
      TraceLength(a, b, i - 1, j);
      TraceLength(a, b, i, j - 1);
    }
  }

  lemma {:induction false} TraceIsCommon<T>(a: seq<T>, b: seq<T>, i: nat, j: nat)
    requires i <= |a| && j <= |b|
    ensures CommonWithin(a, b, i, j, Trace(a, b, i, j))
    decreases i + j
  {
    EmptyIsCommon(a, b, i, j);
    hide CommonWithin, Trace, Table;
    if i == 0 || j == 0 {
      TraceOfNone(a, b, i, j);
    } else {
      TraceStep(a, b, i, j);
      if a[i - 1] == b[j - 1] {
        TraceIsCommon(a, b, i - 1, j - 1);
        CommonExtends(a, b, i, j, Trace(a, b, i - 1, j - 1));
      } else if Table(a, b, i - 1, j) >= Table(a, b, i, j - 1) {
        TraceIsCommon(a, b, i - 1, j);
        CommonWidens(a, b, i - 1, j, i, j, Trace(a, b, i - 1, j));
      } else {
        TraceIsCommon(a, b, i, j - 1);
        CommonWidens(a, b, i, j - 1, i, j, Trace(a, b, i, j - 1));
      }
    }
  }

  /** No common subsequence of the two prefixes is longer than the table entry. */
  lemma {:induction false} TableIsUpperBound<T>(a: seq<T>, b: seq<T>, i: nat, j: nat, pairs: seq<Pair>)
    requires i <= |a| && j <= |b|
    requires CommonWithin(a, b, i, j, pairs)
    ensures |pairs| <= Table(a, b, i, j)
    decreases i + j
  {
    if |pairs| == 0 {
    } else {
      var front, last := pairs[..|pairs| - 1], pairs[|pairs| - 1];
      if a[i - 1] == b[j - 1] {
        assert CommonWithin(a, b, i - 1, j - 1, front);
        TableIsUpperBound(a, b, i - 1, j - 1, front);
      } else if last.0 < i - 1 {
        TableIsUpperBound(a, b, i - 1, j, pairs);
      } else {
        assert last.1 < j - 1;
        TableIsUpperBound(a, b, i, j - 1, pairs);
      }
    }
  }

  /** The computed pairs are a common subsequence, and no common subsequence is longer. */
  lemma LcsIsOptimal<T(!new)>(a: seq<T>, b: seq<T>)
    ensures CommonSubsequence(a, b, LcsPairs(a, b))
    ensures forall pairs :: CommonSubsequence(a, b, pairs) ==> |pairs| <= |LcsPairs(a, b)|
  {
    TraceIsCommon(a, b, |a|, |b|);
    TraceLength(a, b, |a|, |b|);
    forall pairs | CommonSubsequence(a, b, pairs)
      ensures |pairs| <= |LcsPairs(a, b)|
    {
      TableIsUpperBound(a, b, |a|, |b|, pairs);
    }
  }

  /** The same optimum, told in terms of block lists: no list embedded in both sides is longer. */
  lemma LcsBoundsEmbeddings<T(!new)>(a: seq<T>, b: seq<T>, s: seq<T>, inA: seq<nat>, inB: seq<nat>)
    requires EmbedsAt(s, a, inA) && EmbedsAt(s, b, inB)
    ensures |s| <= |LcsPairs(a, b)|
  {
    var pairs: seq<Pair> := seq(|s|, k requires 0 <= k < |s| => (inA[k], inB[k]));
    assert CommonSubsequence(a, b, pairs);
    LcsIsOptimal(a, b);
  }

  /** Of two common subsequences within (i, j), where the first ends at a later block of `a` and was found without that block, the second
      does not end earlier in `b`: else the two could be put together to a longer one. */
  lemma NotOutrun<T>(a: seq<T>, b: seq<T>, i: nat, j: nat, pairs: seq<Pair>, found: seq<Pair>)
    requires 0 < i <= |a| && j <= |b| && CommonWithin(a, b, i, j, pairs) && CommonWithin(a, b, i - 1, j, found)
    requires |pairs| == |found| == Table(a, b, i, j) && |pairs| > 0 && pairs[|pairs| - 1].0 == i - 1
    ensures pairs[|pairs| - 1].1 <= found[|found| - 1].1
  {
    var last := pairs[|pairs| - 1];
    if found[|found| - 1].1 < last.1 {
      TableIsUpperBound(a, b, i, j, found + [last]);
    }
  }

  /** No common subsequence of this length ends later in the second list: where the table leaves a choice, the traceback drops the last block
      of the first list. */
  lemma {:induction false} TraceEndsLatest<T>(a: seq<T>, b: seq<T>, i: nat, j: nat, pairs: seq<Pair>)
    requires i <= |a| && j <= |b| && CommonWithin(a, b, i, j, pairs) && |pairs| == Table(a, b, i, j) && |pairs| > 0
    ensures |Trace(a, b, i, j)| == |pairs| && pairs[|pairs| - 1].1 <= Trace(a, b, i, j)[|pairs| - 1].1
    decreases i + j
  {
    hide Trace, Table;
    var last := pairs[|pairs| - 1];
    TraceLength(a, b, i, j);
    TraceStep(a, b, i, j);
    if a[i - 1] != b[j - 1] {
      TraceLength(a, b, i - 1, j);
      if Table(a, b, i - 1, j) >= Table(a, b, i, j - 1) {
        if last.0 < i - 1 {
          TraceEndsLatest(a, b, i - 1, j, pairs);
        } else {
          TraceIsCommon(a, b, i - 1, j);
          NotOutrun(a, b, i, j, pairs, Trace(a, b, i - 1, j));
        }
      } else {
        if last.0 < i - 1 {
          TableIsUpperBound(a, b, i - 1, j, pairs);
        }
        LastWithin(a, b, i, j, pairs);
        TraceEndsLatest(a, b, i, j - 1, pairs);
      }
    }
  }

  lemma LastWithin<T>(a: seq<T>, b: seq<T>, i: nat, j: nat, pairs: seq<Pair>)
    requires 0 < i <= |a| && 0 < j <= |b| && CommonWithin(a, b, i, j, pairs) && pairs != [] && a[i - 1] != b[j - 1]
    requires pairs[|pairs| - 1].0 == i - 1
    ensures CommonWithin(a, b, i, j - 1, pairs)
  {
  }

  /** The pairs end as late in the second list as a longest common subsequence can, and those before the last pair are found in the same way
      among the blocks before it. */
  lemma LcsEndsLatest<T(!new)>(a: seq<T>, b: seq<T>)
    ensures var found := LcsPairs(a, b);
      && (forall pairs: seq<Pair> :: CommonSubsequence(a, b, pairs) && |pairs| == |found| > 0 ==> pairs[|pairs| - 1].1 <= found[|found| - 1].1)
      && (found != [] ==> var (p, q) := found[|found| - 1]; p < |a| && q < |b| && found == LcsPairs(a[..p], b[..q]) + [(p, q)])
  {
    TraceLength(a, b, |a|, |b|);
    forall pairs: seq<Pair> | CommonSubsequence(a, b, pairs) && |pairs| == |LcsPairs(a, b)| > 0
      ensures pairs[|pairs| - 1].1 <= LcsPairs(a, b)[|pairs| - 1].1
    {
      TraceEndsLatest(a, b, |a|, |b|, pairs);
    }
    if LcsPairs(a, b) != [] {
      var p, q := TraceBack(a, b, |a|, |b|);
      TraceOfPrefix(a, b, p, q, a[..p], b[..q]);
    }
  }

  lemma {:induction false} TraceBack<T>(a: seq<T>, b: seq<T>, i: nat, j: nat) returns (p: nat, q: nat)
    requires i <= |a| && j <= |b| && Trace(a, b, i, j) != []
    ensures p < i && q < j && Trace(a, b, i, j) == Trace(a, b, p, q) + [(p, q)]
    decreases i + j
  {
    hide Trace, Table;
    TraceNotEmpty(a, b, i, j);
    TraceStep(a, b, i, j);
    if a[i - 1] == b[j - 1] {
      p, q := i - 1, j - 1;
    } else if Table(a, b, i - 1, j) >= Table(a, b, i, j - 1) {
      p, q := TraceBack(a, b, i - 1, j);
    } else {
      p, q := TraceBack(a, b, i, j - 1);
    }
  }

  lemma TraceNotEmpty<T>(a: seq<T>, b: seq<T>, i: nat, j: nat)
    requires i <= |a| && j <= |b| && Trace(a, b, i, j) != []
    ensures i > 0 && j > 0
  {
  }

  lemma {:induction false} TraceOfPrefix<T>(a: seq<T>, b: seq<T>, i: nat, j: nat, x: seq<T>, y: seq<T>)
    requires i <= |x| <= |a| && j <= |y| <= |b| && x == a[..|x|] && y == b[..|y|]
    ensures Trace(a, b, i, j) == Trace(x, y, i, j) && Table(a, b, i, j) == Table(x, y, i, j)
    decreases i + j
  {
    hide Trace, Table;
    if i == 0 || j == 0 {
      TraceOfNone(a, b, i, j);
      TraceOfNone(x, y, i, j);
    } else {
      TraceStep(a, b, i, j);
      TraceStep(x, y, i, j);
      TraceOfPrefix(a, b, i - 1, j - 1, x, y);
      TraceOfPrefix(a, b, i - 1, j, x, y);
      TraceOfPrefix(a, b, i, j - 1, x, y);
    }
  }

  /** Row `i` of the table holds the values of the recurrence. */
  ghost predicate RowDone<T>(a: seq<T>, b: seq<T>, dp: array2<nat>, i: nat)
    requires i <= |a| && dp.Length0 == |a| + 1 && dp.Length1 == |b| + 1
    reads dp
  {
    forall j :: 0 <= j <= |b| ==> dp[i, j] == Table(a, b, i, j)
  }

  method FillRow<T(==)>(a: seq<T>, b: seq<T>, dp: array2<nat>, i: nat)
    requires 0 < i <= |a| && dp.Length0 == |a| + 1 && dp.Length1 == |b| + 1
    requires dp[i, 0] == 0
    requires RowDone(a, b, dp, i - 1)
    modifies dp
    ensures RowDone(a, b, dp, i)
    ensures forall x, y :: 0 <= x <= |a| && 0 <= y <= |b| && x != i ==> dp[x, y] == old(dp[x, y])
  {
    for j := 1 to |b| + 1
      invariant forall x, y :: 0 <= x <= |a| && 0 <= y <= |b| && x != i ==> dp[x, y] == old(dp[x, y])
      invariant forall y :: 0 <= y < j ==> dp[i, y] == Table(a, b, i, y)
    {
      assert dp[i - 1, j - 1] == Table(a, b, i - 1, j - 1);
      assert dp[i - 1, j] == Table(a, b, i - 1, j);
      if a[i - 1] == b[j - 1] {
        dp[i, j] := dp[i - 1, j - 1] + 1;
      } else {
        dp[i, j] := Max(dp[i - 1, j], dp[i, j - 1]);
      }
    }
  }

  method FillTable<T(==)>(a: seq<T>, b: seq<T>) returns (dp: array2<nat>)
    ensures fresh(dp) && dp.Length0 == |a| + 1 && dp.Length1 == |b| + 1
    ensures forall i :: 0 <= i <= |a| ==> RowDone(a, b, dp, i)
  {
    dp := new nat[|a| + 1, |b| + 1]((_, _) => 0);
    assert RowDone(a, b, dp, 0);
    for i := 1 to |a| + 1
      invariant forall x :: 0 <= x < i ==> RowDone(a, b, dp, x)
      invariant forall x :: i <= x <= |a| ==> dp[x, 0] == 0
    {
      label before:
      FillRow(a, b, dp, i);
      forall x | 0 <= x < i
        ensures RowDone(a, b, dp, x)
      {
        assert forall y :: 0 <= y <= |b| ==> dp[x, y] == old@before(dp[x, y]);
        assert old@before(RowDone(a, b, dp, x));
      }
    }
  }

  lemma ReversedSnoc<T>(s: seq<T>, x: T)
    ensures Reversed(s + [x]) == [x] + Reversed(s)
  {
  }

  method Traceback<T(==)>(a: seq<T>, b: seq<T>, dp: array2<nat>) returns (pairs: seq<Pair>)
    requires dp.Length0 == |a| + 1 && dp.Length1 == |b| + 1
    requires forall i :: 0 <= i <= |a| ==> RowDone(a, b, dp, i)
    ensures pairs == LcsPairs(a, b)
  {
    var found: seq<Pair> := [];
    var i, j := |a|, |b|;
    while i > 0 && j > 0
      invariant 0 <= i <= |a| && 0 <= j <= |b|
      invariant LcsPairs(a, b) == Trace(a, b, i, j) + Reversed(found)
      decreases i + j
    {
      assert RowDone(a, b, dp, i - 1) && RowDone(a, b, dp, i);
      if a[i - 1] == b[j - 1] {
        ReversedSnoc(found, (i - 1, j - 1));
        found := found + [(i - 1, j - 1)];
        i, j := i - 1, j - 1;
      } else if dp[i - 1, j] >= dp[i, j - 1] {
        i := i - 1;
      } else {
        j := j - 1;
      }
    }
    pairs := Reversed(found);
    assert [] + pairs == pairs;
  }

  /** Table filling followed by the traceback returns a longest common subsequence. */
  method LcsIndexPairs<T(==, !new)>(a: seq<T>, b: seq<T>) returns (pairs: seq<Pair>)
    ensures CommonSubsequence(a, b, pairs)
    ensures forall other :: CommonSubsequence(a, b, other) ==> |other| <= |pairs|
    ensures pairs == LcsPairs(a, b)
  {
    var dp := FillTable(a, b);
    pairs := Traceback(a, b, dp);
    LcsIsOptimal(a, b);
  }
}
