/** Three-way merge of block lists: slot by slot when the lengths agree, along an LCS alignment otherwise. */
module BlockMerge {
  import opened Wrappers
  import opened Sequences
  import Lcs

  /** One entry of the merged list. Every form but `Plain` stands for a block wrapped in conflict markers. */
  datatype MergedBlock<T> =
    | Plain(block: T)
    | TwoSided(local: T, remote: T)
    | LocalKept(block: T)
    | RemoteKept(block: T)

  datatype Merge<T> = Merge(blocks: seq<MergedBlock<T>>, conflict: bool)

  /** For each base index, the index of the matching block on one side. */
  type Alignment = seq<Option<nat>>

  // ---------------------------------------------------------------- alignment

  function AlignPrefix(n: nat, pairs: seq<Lcs.Pair>, k: nat): (m: Alignment)
    requires k <= |pairs| && forall i :: 0 <= i < |pairs| ==> pairs[i].0 < n
    ensures |m| == n
  {
    if k == 0 then seq(n, _ => None) else AlignPrefix(n, pairs, k - 1)[pairs[k - 1].0 := Some(pairs[k - 1].1)]
  }

  function AlignToBase<T(==)>(base: seq<T>, side: seq<T>): (m: Alignment)
    ensures |m| == |base|
  {
    hide Lcs.Trace, Lcs.Table;
    hide AlignPrefix, Lcs.Trace;
    Lcs.TraceIsCommon(base, side, |base|, |side|);
    var pairs := Lcs.LcsPairs(base, side);
    AlignPrefix(|base|, pairs, |pairs|)
  }

  /** Aligned entries match equal blocks, and no block of the side is matched twice. */
  ghost predicate Aligns<T>(base: seq<T>, side: seq<T>, m: Alignment) {
    && |m| == |base|
    && (forall i :: 0 <= i < |m| && m[i].Some? ==> m[i].value < |side| && side[m[i].value] == base[i])
    && (forall i, j :: 0 <= i < j < |m| && m[i].Some? && m[j].Some? ==> m[i].value < m[j].value)
  }

  lemma {:induction false} AlignPrefixReadsPairs(n: nat, pairs: seq<Lcs.Pair>, k: nat)
    requires k <= |pairs| && forall i :: 0 <= i < |pairs| ==> pairs[i].0 < n
    requires forall i, j :: 0 <= i < j < |pairs| ==> pairs[i].0 < pairs[j].0
    ensures forall i, s :: 0 <= i < n ==> (AlignPrefix(n, pairs, k)[i] == Some(s) <==> (i, s) in pairs[..k])
  {
    if k != 0 {
      AlignPrefixReadsPairs(n, pairs, k - 1);
      assert pairs[..k] == pairs[..k - 1] + [pairs[k - 1]];
    }
  }

  /** The alignment matches exactly the base indices of a longest common subsequence. */
  lemma AlignToBaseAligns<T>(base: seq<T>, side: seq<T>)
    ensures Aligns(base, side, AlignToBase(base, side))
    ensures forall i, s :: 0 <= i < |base| ==> (AlignToBase(base, side)[i] == Some(s) <==> (i, s) in Lcs.LcsPairs(base, side))
  {
    hide AlignPrefix, Lcs.Trace;
    Lcs.TraceIsCommon(base, side, |base|, |side|);
    var pairs := Lcs.LcsPairs(base, side);
    AlignPrefixReadsPairs(|base|, pairs, |pairs|);
    assert pairs[..|pairs|] == pairs;
    var m := AlignToBase(base, side);
    forall i | 0 <= i < |m| && m[i].Some?
      ensures (i, m[i].value) in pairs
    {
      assert m[i] == Some(m[i].value);
    }
  }

  method AlignSide<T(==, !new)>(base: seq<T>, side: seq<T>) returns (m: Alignment)
    ensures m == AlignToBase(base, side) && Aligns(base, side, m)
  {
    var pairs := Lcs.LcsIndexPairs(base, side);
    m := seq(|base|, _ => None);
    for k := 0 to |pairs|
      invariant m == AlignPrefix(|base|, pairs, k)
    {
      m := m[pairs[k].0 := Some(pairs[k].1)];
    }
    AlignToBaseAligns(base, side);
  }

  function UsedBy(m: Alignment): set<nat> {
    set i | 0 <= i < |m| && m[i].Some? :: m[i].value
  }

  // ---------------------------------------------------------------- the merge as a function

  /** The three-way decision for one slot; absent means the side has no block aligned with the base block. */
  function Slot<T(==)>(b: T, l: Option<T>, r: Option<T>): seq<MergedBlock<T>> {
    match (l, r)
    case (Some(lv), Some(rv)) =>
      if lv == rv then [Plain(lv)]
      else if lv == b then [Plain(rv)]
      else if rv == b then [Plain(lv)]
      else [TwoSided(lv, rv)]
    case (Some(lv), None) => [LocalKept(lv)]
    case (None, Some(rv)) => [RemoteKept(rv)]
    case (None, None) => []
  }

  function BlockAt<T>(side: seq<T>, at: Option<nat>): Option<T> {
    if at.Some? && at.value < |side| then Some(side[at.value]) else None
  }

  function Slots<T(==)>(base: seq<T>, local: seq<T>, remote: seq<T>, lm: Alignment, rm: Alignment, k: nat): seq<MergedBlock<T>>
    requires k <= |base| == |lm| == |rm|
  {
    if k == 0 then []
    else Slots(base, local, remote, lm, rm, k - 1) + Slot(base[k - 1], BlockAt(local, lm[k - 1]), BlockAt(remote, rm[k - 1]))
  }

  /** The first `n` blocks of a side without those at used positions. */
  function Inserts<T>(side: seq<T>, used: set<nat>, n: nat): seq<T>
    requires n <= |side|
  {
    if n == 0 then []
    else Inserts(side, used, n - 1) + if n - 1 in used then [] else [side[n - 1]]
  }

  /** The remote positions in use after the first `n` local blocks have been walked: an inserted local block
      marks the first equal remote block as already mirrored. */
  function Mirror<T(==)>(local: seq<T>, remote: seq<T>, usedL: set<nat>, usedR: set<nat>, n: nat): set<nat>
    requires n <= |local|
  {
    if n == 0 then usedR
    else
      var before := Mirror(local, remote, usedL, usedR, n - 1);
      if n - 1 !in usedL && local[n - 1] in remote then before + {IndexOf(remote, local[n - 1])} else before
  }

  function Plains<T>(s: seq<T>): (p: seq<MergedBlock<T>>)
    ensures |p| == |s|
  {
    seq(|s|, i requires 0 <= i < |s| => Plain(s[i]))
  }

  predicate Marked<T>(out: seq<MergedBlock<T>>) {
    exists i :: 0 <= i < |out| && !out[i].Plain?
  }

  function MergeLcs<T(==)>(base: seq<T>, local: seq<T>, remote: seq<T>): Merge<T> {
    var lm, rm := AlignToBase(base, local), AlignToBase(base, remote);
    var slots := Slots(base, local, remote, lm, rm, |base|);
    var mirrored := Mirror(local, remote, UsedBy(lm), UsedBy(rm), |local|);
    Merge(slots + Plains(Inserts(local, UsedBy(lm), |local|)) + Plains(Inserts(remote, mirrored, |remote|)), Marked(slots))
  }

  // ---------------------------------------------------------------- conservation

  /** What a census counts: one given block, or every block. */
  datatype Census<T> = Only(block: T) | Every

  function Hit<T(==)>(c: Census<T>, b: T): nat {
    if c.Every? || c.block == b then 1 else 0
  }

  function Count<T(==)>(s: seq<T>, c: Census<T>): nat {
    if s == [] then 0 else Count(s[..|s| - 1], c) + Hit(c, s[|s| - 1])
  }

  function HitEntry<T(==)>(c: Census<T>, entry: MergedBlock<T>): nat {
    match entry
    case Plain(b) => Hit(c, b)
    case TwoSided(l, r) => Hit(c, l) + Hit(c, r)
    case LocalKept(b) => Hit(c, b)
    case RemoteKept(b) => Hit(c, b)
  }

  /** How often the merged list holds what is counted; a marked block counts like a plain one. */
  function CountMerged<T(==)>(out: seq<MergedBlock<T>>, c: Census<T>): nat {
    if out == [] then 0 else CountMerged(out[..|out| - 1], c) + HitEntry(c, out[|out| - 1])
  }

  /** The census over the first `n` blocks of a side, restricted to positions in `at`. */
  function CountAt<T(==)>(side: seq<T>, at: set<nat>, n: nat, c: Census<T>): nat
    requires n <= |side|
  {
    if n == 0 then 0 else CountAt(side, at, n - 1, c) + if n - 1 in at then Hit(c, side[n - 1]) else 0
  }

  /** The census over the base blocks that both sides kept. */
  function CountKept<T(==)>(base: seq<T>, lm: Alignment, rm: Alignment, k: nat, c: Census<T>): nat
    requires k <= |base| == |lm| == |rm|
  {
    if k == 0 then 0
    else CountKept(base, lm, rm, k - 1, c) + if lm[k - 1].Some? && rm[k - 1].Some? then Hit(c, base[k - 1]) else 0
  }

  lemma {:induction false} CountMergedConcat<T>(x: seq<MergedBlock<T>>, y: seq<MergedBlock<T>>, c: Census<T>)
    ensures CountMerged(x + y, c) == CountMerged(x, c) + CountMerged(y, c)
  {
    if y == [] {
      assert x + y == x;
    } else {
      CountMergedConcat(x, y[..|y| - 1], c);
      assert (x + y)[..|x + y| - 1] == x + y[..|y| - 1];
    }
  }

  lemma {:induction false} CountOfPlains<T>(s: seq<T>, c: Census<T>)
    ensures CountMerged(Plains(s), c) == Count(s, c)
  {
    if s != [] {
      CountOfPlains(s[..|s| - 1], c);
      assert Plains(s)[..|s| - 1] == Plains(s[..|s| - 1]);
    }
  }

  lemma {:induction false} CountSplits<T>(side: seq<T>, used: set<nat>, n: nat, c: Census<T>)
    requires n <= |side|
    ensures CountAt(side, used, n, c) + Count(Inserts(side, used, n), c) == Count(side[..n], c)
  {
    if n != 0 {
      CountSplits(side, used, n - 1, c);
      assert side[..n][..n - 1] == side[..n - 1];
      var front := Inserts(side, used, n - 1);
      assert (front + [side[n - 1]])[..|front|] == front;
      assert front + [] == front;
    }
  }

  lemma {:induction false} CountAtUnion<T>(side: seq<T>, u: set<nat>, v: set<nat>, n: nat, c: Census<T>)
    requires n <= |side| && u !! v
    ensures CountAt(side, u + v, n, c) == CountAt(side, u, n, c) + CountAt(side, v, n, c)
  {
    if n != 0 {
      CountAtUnion(side, u, v, n - 1, c);
    }
  }

  lemma {:induction false} CountAtSingle<T>(side: seq<T>, i: nat, n: nat, c: Census<T>)
    requires n <= |side|
    ensures CountAt(side, {i}, n, c) == if i < n then Hit(c, side[i]) else 0
  {
    if n != 0 {
      CountAtSingle(side, i, n - 1, c);
    }
  }

  lemma {:induction false} CountAtEmpty<T>(side: seq<T>, n: nat, c: Census<T>)
    requires n <= |side|
    ensures CountAt(side, {}, n, c) == 0
  {
    if n != 0 {
      CountAtEmpty(side, n - 1, c);
    }
  }

  lemma UsedByStep(m: Alignment, k: nat)
    requires k < |m|
    ensures UsedBy(m[..k + 1]) == UsedBy(m[..k]) + if m[k].Some? then {m[k].value} else {}
  {
    var bigger, smaller := m[..k + 1], m[..k];
    forall x | x in UsedBy(bigger)
      ensures x in UsedBy(smaller) + if m[k].Some? then {m[k].value} else {}
    {
      var i :| 0 <= i < |bigger| && bigger[i].Some? && bigger[i].value == x;
      if i < k {
        assert smaller[i] == bigger[i];
      }
    }
    forall x | x in UsedBy(smaller)
      ensures x in UsedBy(bigger)
    {
      var i :| 0 <= i < |smaller| && smaller[i].Some? && smaller[i].value == x;
      assert bigger[i] == smaller[i];
    }
    if m[k].Some? {
      assert bigger[k].Some?;
    }
  }

  /** One more aligned base block adds exactly that block to what the side has matched. */
  lemma CountAtStep<T>(base: seq<T>, side: seq<T>, m: Alignment, k: nat, c: Census<T>)
    requires Aligns(base, side, m) && k < |m|
    ensures CountAt(side, UsedBy(m[..k + 1]), |side|, c)
         == CountAt(side, UsedBy(m[..k]), |side|, c) + if m[k].Some? then Hit(c, base[k]) else 0
  {
    UsedByStep(m, k);
    if m[k].Some? {
      CountAtUnion(side, UsedBy(m[..k]), {m[k].value}, |side|, c);
      CountAtSingle(side, m[k].value, |side|, c);
    } else {
      assert UsedBy(m[..k + 1]) == UsedBy(m[..k]);
    }
  }

  lemma CountSlot<T>(b: T, l: Option<T>, r: Option<T>, c: Census<T>)
    requires (l.Some? ==> l.value == b) && (r.Some? ==> r.value == b)
    ensures CountMerged(Slot(b, l, r), c) == if l.Some? || r.Some? then Hit(c, b) else 0
  {
    var slot := Slot(b, l, r);
    if slot != [] {
      assert slot[..0] == [];
    }
  }

  lemma NothingMerged<T>(base: seq<T>, local: seq<T>, remote: seq<T>, lm: Alignment, rm: Alignment, c: Census<T>)
    requires Aligns(base, local, lm) && Aligns(base, remote, rm)
    ensures CountMerged(Slots(base, local, remote, lm, rm, 0), c) == 0 == CountKept(base, lm, rm, 0, c)
  {
  }

  /** After k base blocks: both sides' aligned blocks, with one copy in place of two where both sides kept the base block. */
  ghost predicate Conserved<T>(base: seq<T>, local: seq<T>, remote: seq<T>, lm: Alignment, rm: Alignment, k: nat, c: Census<T>)
    requires k <= |base| == |lm| == |rm|
  {
    var both, l, r := CountKept(base, lm, rm, k, c), CountAt(local, UsedBy(lm[..k]), |local|, c), CountAt(remote, UsedBy(rm[..k]), |remote|, c);
    CountMerged(Slots(base, local, remote, lm, rm, k), c) + both == l + r && both <= l && both <= r
  }

  lemma ConservedStart<T>(base: seq<T>, local: seq<T>, remote: seq<T>, lm: Alignment, rm: Alignment, c: Census<T>)
    requires Aligns(base, local, lm) && Aligns(base, remote, rm)
    ensures Conserved(base, local, remote, lm, rm, 0, c)
  {
    hide CountAt, UsedBy, CountMerged, CountKept, Slots;
    NothingMerged(base, local, remote, lm, rm, c);
    NothingUsed(local, lm, c);
    NothingUsed(remote, rm, c);
  }

  lemma ConservedStep<T>(base: seq<T>, local: seq<T>, remote: seq<T>, lm: Alignment, rm: Alignment, k: nat, c: Census<T>)
    requires Aligns(base, local, lm) && Aligns(base, remote, rm) && k < |base| && Conserved(base, local, remote, lm, rm, k, c)
    ensures Conserved(base, local, remote, lm, rm, k + 1, c)
  {
    assert |lm| == |base| == |rm|;
    hide CountAt, Aligns, UsedBy, CountMerged, CountKept, Slots;
    CountAtStep(base, local, lm, k, c);
    CountAtStep(base, remote, rm, k, c);
    MergedStep(base, local, remote, lm, rm, k, c);
  }

  lemma {:induction false} SlotsConserve<T>(base: seq<T>, local: seq<T>, remote: seq<T>, lm: Alignment, rm: Alignment, k: nat, c: Census<T>)
    requires Aligns(base, local, lm) && Aligns(base, remote, rm) && k <= |base|
    ensures Conserved(base, local, remote, lm, rm, k, c)
  {
    hide Conserved;
    if k == 0 {
      ConservedStart(base, local, remote, lm, rm, c);
    } else {
      SlotsConserve(base, local, remote, lm, rm, k - 1, c);
      ConservedStep(base, local, remote, lm, rm, k - 1, c);
    }
  }

  lemma NothingUsed<T>(side: seq<T>, m: Alignment, c: Census<T>)
    ensures CountAt(side, UsedBy(m[..0]), |side|, c) == 0
  {
    assert UsedBy(m[..0]) == {};
    CountAtEmpty(side, |side|, c);
  }

  /** What one more slot adds to the merged blocks and to the blocks that both sides kept. */
  lemma MergedStep<T>(base: seq<T>, local: seq<T>, remote: seq<T>, lm: Alignment, rm: Alignment, k: nat, c: Census<T>)
    requires Aligns(base, local, lm) && Aligns(base, remote, rm) && k < |base|
    ensures CountMerged(Slots(base, local, remote, lm, rm, k + 1), c)
         == CountMerged(Slots(base, local, remote, lm, rm, k), c) + if lm[k].Some? || rm[k].Some? then Hit(c, base[k]) else 0
    ensures CountKept(base, lm, rm, k + 1, c) == CountKept(base, lm, rm, k, c) + if lm[k].Some? && rm[k].Some? then Hit(c, base[k]) else 0
  {
    hide Slot, CountMerged;
    var l, r := BlockAt(local, lm[k]), BlockAt(remote, rm[k]);
    CountSlot(base[k], l, r, c);
    CountMergedConcat(Slots(base, local, remote, lm, rm, k), Slot(base[k], l, r), c);
  }

  /** The slots carry a marker exactly when some base block is aligned on one side only. */
  lemma {:induction false} SlotsMarked<T>(base: seq<T>, local: seq<T>, remote: seq<T>, lm: Alignment, rm: Alignment, k: nat)
    requires Aligns(base, local, lm) && Aligns(base, remote, rm) && k <= |base|
    ensures Marked(Slots(base, local, remote, lm, rm, k)) <==> exists i :: 0 <= i < k && lm[i].Some? != rm[i].Some?
    ensures forall i :: 0 <= i < |Slots(base, local, remote, lm, rm, k)| ==> !Slots(base, local, remote, lm, rm, k)[i].TwoSided?
  {
    if k != 0 {
      SlotsMarked(base, local, remote, lm, rm, k - 1);
      var before := Slots(base, local, remote, lm, rm, k - 1);
      var slot := Slot(base[k - 1], BlockAt(local, lm[k - 1]), BlockAt(remote, rm[k - 1]));
      MarkedConcat(before, slot);
      if lm[k - 1].Some? != rm[k - 1].Some? {
        assert !slot[0].Plain?;
      }
    }
  }

  lemma MarkedConcat<T>(x: seq<MergedBlock<T>>, y: seq<MergedBlock<T>>)
    ensures Marked(x + y) <==> Marked(x) || Marked(y)
  {
    if Marked(x) {
      var i :| 0 <= i < |x| && !x[i].Plain?;
      assert !(x + y)[i].Plain?;
    }
    if Marked(y) {
      var i :| 0 <= i < |y| && !y[i].Plain?;
      assert !(x + y)[|x| + i].Plain?;
    }
  }

  /** A position that a local insert mirrors: unaligned, the first of its value, and equal to some local insert. */
  ghost predicate MirrorOf<T>(remote: seq<T>, inserts: seq<T>, i: nat) {
    i < |remote| && remote[i] in inserts && i == IndexOf(remote, remote[i])
  }

  lemma {:induction false} MirrorAdds<T>(local: seq<T>, remote: seq<T>, usedL: set<nat>, usedR: set<nat>, n: nat)
    requires n <= |local|
    ensures usedR <= Mirror(local, remote, usedL, usedR, n)
    ensures forall i :: i in Mirror(local, remote, usedL, usedR, n) - usedR ==> MirrorOf(remote, Inserts(local, usedL, n), i)
  {
    if n != 0 {
      MirrorAdds(local, remote, usedL, usedR, n - 1);
      var before, after := Inserts(local, usedL, n - 1), Inserts(local, usedL, n);
      forall i | i in Mirror(local, remote, usedL, usedR, n) - usedR
        ensures MirrorOf(remote, after, i)
      {
        if i in Mirror(local, remote, usedL, usedR, n - 1) {
          assert MirrorOf(remote, before, i);
        } else {
          assert after == before + [local[n - 1]];
          assert remote[i] == local[n - 1] == after[|before|];
        }
      }
    }
  }

  /** Positions that are each the first of their value hold each value at most once. */
  lemma {:induction false} FirstPositionsAreSingle<T>(remote: seq<T>, inserts: seq<T>, at: set<nat>, n: nat, x: T)
    requires n <= |remote|
    requires forall i :: i in at ==> MirrorOf(remote, inserts, i)
    ensures CountAt(remote, at, n, Only(x)) <= 1
    ensures CountAt(remote, at, n, Only(x)) > 0 ==> x in inserts && x in remote && IndexOf(remote, x) < n
  {
    if n != 0 {
      FirstPositionsAreSingle(remote, inserts, at, n - 1, x);
      if n - 1 in at {
        assert MirrorOf(remote, inserts, n - 1);
      }
    }
  }

  lemma {:induction false} CountPositive<T>(s: seq<T>, x: T)
    ensures Count(s, Only(x)) > 0 <==> x in s
  {
    if s != [] {
      CountPositive(s[..|s| - 1], x);
      assert s == s[..|s| - 1] + [s[|s| - 1]];
    }
  }

  lemma {:induction false} CountEvery<T>(s: seq<T>)
    ensures Count(s, Every) == |s|
  {
    if s != [] {
      CountEvery(s[..|s| - 1]);
    }
  }

  /** The census over the remote blocks left out because an equal local insert already stands for them. */
  function CountMirrored<T(==)>(base: seq<T>, local: seq<T>, remote: seq<T>, c: Census<T>): nat {
    var usedL, usedR := UsedBy(AlignToBase(base, local)), UsedBy(AlignToBase(base, remote));
    CountAt(remote, Mirror(local, remote, usedL, usedR, |local|) - usedR, |remote|, c)
  }

  /** The census over the base blocks that both sides still hold. */
  function CountShared<T(==)>(base: seq<T>, local: seq<T>, remote: seq<T>, c: Census<T>): nat {
    CountKept(base, AlignToBase(base, local), AlignToBase(base, remote), |base|, c)
  }

  /** Exact conservation: the merge holds both sides' blocks, with one copy in place of two for every base block
      kept by both sides and for every remote block mirrored by a local insert. */
  lemma MergeConservesBlocks<T>(base: seq<T>, local: seq<T>, remote: seq<T>, c: Census<T>)
    ensures CountMerged(MergeLcs(base, local, remote).blocks, c) + CountShared(base, local, remote, c) + CountMirrored(base, local, remote, c)
         == Count(local, c) + Count(remote, c)
    ensures CountShared(base, local, remote, c) + CountMirrored(base, local, remote, c) <= Count(remote, c)
    ensures CountShared(base, local, remote, c)
         <= Count(local, c) - Count(Inserts(local, UsedBy(AlignToBase(base, local)), |local|), c)
  {
    hide AlignToBase, UsedBy, Slots, Inserts, Mirror, CountAt, CountMerged, Count, CountKept, Plains;
    var lm, rm := AlignToBase(base, local), AlignToBase(base, remote);
    AlignToBaseAligns(base, local);
    AlignToBaseAligns(base, remote);
    hide Aligns;
    var usedL, usedR := UsedBy(lm), UsedBy(rm);
    var after := Mirror(local, remote, usedL, usedR, |local|);
    var slots, ins, rest := Slots(base, local, remote, lm, rm, |base|), Inserts(local, usedL, |local|), Inserts(remote, after, |remote|);
    SlotsConserve(base, local, remote, lm, rm, |base|, c);
    assert lm[..|base|] == lm && rm[..|base|] == rm && local[..|local|] == local && remote[..|remote|] == remote;
    CountMergedConcat(slots, Plains(ins), c);
    CountMergedConcat(slots + Plains(ins), Plains(rest), c);
    CountOfPlains(ins, c);
    CountOfPlains(rest, c);
    CountSplits(local, usedL, |local|, c);
    CountSplits(remote, after, |remote|, c);
    MirrorAdds(local, remote, usedL, usedR, |local|);
    CountAtUnion(remote, usedR, after - usedR, |remote|, c);
    assert usedR + (after - usedR) == after;
  }

  /** No block of either side is lost: each occurs in the merge at least as often as on that side. */
  lemma MergeKeepsEverything<T>(base: seq<T>, local: seq<T>, remote: seq<T>, x: T)
    ensures Count(local, Only(x)) <= CountMerged(MergeLcs(base, local, remote).blocks, Only(x))
    ensures Count(remote, Only(x)) <= CountMerged(MergeLcs(base, local, remote).blocks, Only(x))
  {
    MergeConservesBlocks(base, local, remote, Only(x));
    var usedL, usedR := UsedBy(AlignToBase(base, local)), UsedBy(AlignToBase(base, remote));
    var ins := Inserts(local, usedL, |local|);
    MirrorAdds(local, remote, usedL, usedR, |local|);
    FirstPositionsAreSingle(remote, ins, Mirror(local, remote, usedL, usedR, |local|) - usedR, |remote|, x);
    CountPositive(ins, x);
  }

  /** The merge is no longer than the two sides together, a block in conflict markers counting once. */
  lemma MergeLengthBound<T>(base: seq<T>, local: seq<T>, remote: seq<T>)
    ensures |MergeLcs(base, local, remote).blocks| <= |local| + |remote|
  {
    MergeConservesBlocks(base, local, remote, Every);
    CountEvery(local);
    CountEvery(remote);
    EntriesCount(MergeLcs(base, local, remote).blocks);
  }

  lemma {:induction false} EntriesCount<T>(out: seq<MergedBlock<T>>)
    ensures |out| <= CountMerged(out, Every)
  {
    if out != [] {
      EntriesCount(out[..|out| - 1]);
    }
  }

  /** The merge is clean exactly when both sides align the same base blocks; no block is ever marked as edited twice. */
  lemma MergeCleanIffSameKept<T>(base: seq<T>, local: seq<T>, remote: seq<T>)
    ensures !MergeLcs(base, local, remote).conflict <==>
      forall i :: 0 <= i < |base| ==> AlignToBase(base, local)[i].Some? == AlignToBase(base, remote)[i].Some?
    ensures forall i :: 0 <= i < |MergeLcs(base, local, remote).blocks| ==> !MergeLcs(base, local, remote).blocks[i].TwoSided?
    ensures MergeLcs(base, local, remote).conflict == Marked(MergeLcs(base, local, remote).blocks)
  {
    AlignToBaseAligns(base, local);
    AlignToBaseAligns(base, remote);
    var lm, rm := AlignToBase(base, local), AlignToBase(base, remote);
    var after := Mirror(local, remote, UsedBy(lm), UsedBy(rm), |local|);
    SlotsMarked(base, local, remote, lm, rm, |base|);
    var slots := Slots(base, local, remote, lm, rm, |base|);
    var ins, rest := Plains(Inserts(local, UsedBy(lm), |local|)), Plains(Inserts(remote, after, |remote|));
    MarkedConcat(slots, ins);
    MarkedConcat(slots + ins, rest);
  }

  // ---------------------------------------------------------------- the loops

  /** The flag array marks exactly the used positions. */
  ghost predicate Flags(flags: array<bool>, used: set<nat>)
    reads flags
  {
    forall i :: 0 <= i < flags.Length ==> (flags[i] <==> i in used)
  }

  lemma UsedByNone(m: Alignment)
    ensures UsedBy(m[..0]) == {}
  {
  }

  lemma SlotMarked<T>(b: T, l: Option<T>, r: Option<T>)
    ensures Marked(Slot(b, l, r)) <==> |Slot(b, l, r)| > 0 && !Slot(b, l, r)[0].Plain?
  {
    assert |Slot(b, l, r)| <= 1;
  }

  lemma NoneMarked<T>(out: seq<MergedBlock<T>>)
    requires out == []
    ensures !Marked(out)
  {
  }

  /** The walk over the base: one slot per base block, flagging the positions the alignments reach. */
  method MergeSlots<T(==)>(base: seq<T>, local: seq<T>, remote: seq<T>, lm: Alignment, rm: Alignment,
                           usedLocal: array<bool>, usedRemote: array<bool>)
    returns (out: seq<MergedBlock<T>>, conflict: bool)
    requires Aligns(base, local, lm) && Aligns(base, remote, rm)
    requires usedLocal != usedRemote && usedLocal.Length == |local| && usedRemote.Length == |remote|
    requires Flags(usedLocal, {}) && Flags(usedRemote, {})
    modifies usedLocal, usedRemote
    ensures out == Slots(base, local, remote, lm, rm, |base|) && conflict == Marked(out)
    ensures Flags(usedLocal, UsedBy(lm)) && Flags(usedRemote, UsedBy(rm))
  {
    hide UsedBy, Slot, Marked;
    out, conflict := [], false;
    UsedByNone(lm);
    UsedByNone(rm);
    NoneMarked(out);
    for k := 0 to |base|
      invariant out == Slots(base, local, remote, lm, rm, k) && conflict == Marked(out)
      invariant Flags(usedLocal, UsedBy(lm[..k])) && Flags(usedRemote, UsedBy(rm[..k]))
    {
      UsedByStep(lm, k);
      UsedByStep(rm, k);
      var l, r := None, None;
      if lm[k].Some? {
        usedLocal[lm[k].value] := true;
        l := Some(local[lm[k].value]);
      }
      if rm[k].Some? {
        usedRemote[rm[k].value] := true;
        r := Some(remote[rm[k].value]);
      }
      var slot := Slot(base[k], l, r);
      MarkedConcat(out, slot);
      SlotMarked(base[k], l, r);
      conflict := conflict || (|slot| > 0 && !slot[0].Plain?);
      out := out + slot;
    }
    assert lm[..|base|] == lm && rm[..|base|] == rm;
  }

  /** Local blocks without a base partner are appended; an equal remote block is flagged as mirrored. */
  method AppendLocal<T(==)>(slots: seq<MergedBlock<T>>, local: seq<T>, remote: seq<T>, usedLocal: array<bool>, usedRemote: array<bool>,
                            ghost usedL: set<nat>, ghost usedR: set<nat>)
    returns (out: seq<MergedBlock<T>>)
    requires usedLocal != usedRemote && usedLocal.Length == |local| && usedRemote.Length == |remote|
    requires Flags(usedLocal, usedL) && Flags(usedRemote, usedR)
    modifies usedRemote
    ensures out == slots + Plains(Inserts(local, usedL, |local|))
    ensures Flags(usedRemote, Mirror(local, remote, usedL, usedR, |local|))
  {
    out := slots;
    for i := 0 to |local|
      invariant out == slots + Plains(Inserts(local, usedL, i))
      invariant Flags(usedLocal, usedL) && Flags(usedRemote, Mirror(local, remote, usedL, usedR, i))
    {
      if !usedLocal[i] {
        PlainsSnoc(Inserts(local, usedL, i), local[i]);
        out := out + [Plain(local[i])];
        if local[i] in remote {
          usedRemote[IndexOf(remote, local[i])] := true;
        }
      }
    }
  }

  lemma PlainsSnoc<T>(s: seq<T>, x: T)
    ensures Plains(s + [x]) == Plains(s) + [Plain(x)]
  {
  }

  /** Remote blocks that are neither aligned nor mirrored are appended. */
  method AppendRemote<T(==)>(before: seq<MergedBlock<T>>, remote: seq<T>, usedRemote: array<bool>, ghost used: set<nat>)
    returns (out: seq<MergedBlock<T>>)
    requires usedRemote.Length == |remote| && Flags(usedRemote, used)
    ensures out == before + Plains(Inserts(remote, used, |remote|))
  {
    out := before;
    for i := 0 to |remote|
      invariant out == before + Plains(Inserts(remote, used, i))
    {
      if !usedRemote[i] {
        PlainsSnoc(Inserts(remote, used, i), remote[i]);
        out := out + [Plain(remote[i])];
      }
    }
  }

  lemma MergeFacts<T(!new)>(base: seq<T>, local: seq<T>, remote: seq<T>)
    ensures var m := MergeLcs(base, local, remote);
      && (forall x :: Count(local, Only(x)) <= CountMerged(m.blocks, Only(x)) && Count(remote, Only(x)) <= CountMerged(m.blocks, Only(x)))
      && |m.blocks| <= |local| + |remote| && m.conflict == Marked(m.blocks)
  {
    hide MergeLcs, Count, CountMerged, Marked;
    MergeCleanIffSameKept(base, local, remote);
    MergeLengthBound(base, local, remote);
    forall x
      ensures var m := MergeLcs(base, local, remote);
        Count(local, Only(x)) <= CountMerged(m.blocks, Only(x)) && Count(remote, Only(x)) <= CountMerged(m.blocks, Only(x))
    {
      MergeKeepsEverything(base, local, remote, x);
    }
  }

  method MergeBlocksLcs<T(==, !new)>(base: seq<T>, local: seq<T>, remote: seq<T>) returns (out: seq<MergedBlock<T>>, conflict: bool)
    ensures Merge(out, conflict) == MergeLcs(base, local, remote)
    ensures forall x :: Count(local, Only(x)) <= CountMerged(out, Only(x)) && Count(remote, Only(x)) <= CountMerged(out, Only(x))
    ensures |out| <= |local| + |remote| && conflict == Marked(out)
  {
    hide Count, CountMerged, Slots, Marked, UsedBy, Mirror, Aligns, Inserts, Plains;
    var lm := AlignSide(base, local);
    var rm := AlignSide(base, remote);
    var usedLocal := new bool[|local|](_ => false);
    var usedRemote := new bool[|remote|](_ => false);
    out, conflict := MergeSlots(base, local, remote, lm, rm, usedLocal, usedRemote);
    out := AppendLocal(out, local, remote, usedLocal, usedRemote, UsedBy(lm), UsedBy(rm));
    out := AppendRemote(out, remote, usedRemote, Mirror(local, remote, UsedBy(lm), UsedBy(rm), |local|));
    MergeFacts(base, local, remote);
  }
}
