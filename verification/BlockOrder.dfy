/** In which order the blocks of an alignment merge come out, told by the common subsequences alone. */
module BlockOrder {
  import opened Wrappers
  import opened Sequences
  import opened BlockMerge
  import Lcs

  /** Which base blocks, and which blocks of the side, a list of pairs matches. */
  function Firsts(pairs: seq<Lcs.Pair>): set<nat> {
    set p | p in pairs :: p.0
  }

  function Seconds(pairs: seq<Lcs.Pair>): set<nat> {
    set p | p in pairs :: p.1
  }

  /** The blocks of a side that are not in the base. */
  function Unpaired<T>(side: seq<T>, pairs: seq<Lcs.Pair>): set<nat> {
    set i | 0 <= i < |side| && i !in Seconds(pairs)
  }

  /** The first place in remote of a block that local adds. */
  ghost predicate Mirrored<T>(local: seq<T>, remote: seq<T>, added: set<nat>, j: nat)
    requires j < |remote| && forall i :: i in added ==> i < |local|
  {
    remote[j] !in remote[..j] && exists i :: i in added && local[i] == remote[j]
  }

  /** First the base blocks that either side still pairs, in base order and marked when only one side does; then the blocks that local adds,
      in local order; then the blocks that remote adds, in remote order, without those that mirror a local addition. */
  ghost predicate InOrder<T>(base: seq<T>, local: seq<T>, remote: seq<T>, out: seq<MergedBlock<T>>, kept: seq<nat>, mine: seq<nat>, theirs: seq<nat>) {
    var l, r := Lcs.LcsPairs(base, local), Lcs.LcsPairs(base, remote);
    && Places(kept, Firsts(l) + Firsts(r))
    && Places(mine, Unpaired(local, l))
    && Places(theirs, set j | j in Unpaired(remote, r) && !Mirrored(local, remote, Unpaired(local, l), j))
    && |out| == |kept| + |mine| + |theirs|
    && (forall i :: 0 <= i < |kept| ==> kept[i] < |base| && out[i] == KeptAs(base[kept[i]], kept[i] in Firsts(l), kept[i] in Firsts(r)))
    && (forall i :: 0 <= i < |mine| ==> mine[i] < |local| && out[|kept| + i] == Plain(local[mine[i]]))
    && (forall i :: 0 <= i < |theirs| ==> theirs[i] < |remote| && out[|kept| + |mine| + i] == Plain(remote[theirs[i]]))
  }

  function KeptAs<T>(b: T, byLocal: bool, byRemote: bool): MergedBlock<T> {
    if byLocal && byRemote then Plain(b) else if byLocal then LocalKept(b) else RemoteKept(b)
  }

  // ---------------------------------------------------------------- the three stretches

  function Below(n: nat, used: set<nat>): set<nat> {
    set i | 0 <= i < n && i !in used
  }

  lemma {:induction false} InsertsInOrder<T>(side: seq<T>, used: set<nat>, n: nat) returns (at: seq<nat>)
    requires n <= |side|
    ensures Places(at, Below(n, used)) && |at| == |Inserts(side, used, n)|
    ensures forall i :: 0 <= i < |at| ==> at[i] < n && Inserts(side, used, n)[i] == side[at[i]]
  {
    at := [];
    if n != 0 {
      at := InsertsInOrder(side, used, n - 1);
      if n - 1 in used {
        assert Below(n, used) == Below(n - 1, used);
      } else {
        assert Below(n, used) == Below(n - 1, used) + {n - 1};
        PlacesSnoc(at, Below(n - 1, used), n - 1);
        at := at + [n - 1];
      }
    }
  }

  function KeptBelow(k: nat, lm: Alignment, rm: Alignment): set<nat>
    requires k <= |lm| == |rm|
  {
    set i | 0 <= i < k && (lm[i].Some? || rm[i].Some?)
  }

  lemma SlotOf<T>(b: T, l: Option<T>, r: Option<T>)
    requires (l.Some? ==> l.value == b) && (r.Some? ==> r.value == b)
    ensures Slot(b, l, r) == if l.Some? || r.Some? then [KeptAs(b, l.Some?, r.Some?)] else []
  {
  }

  lemma NoSlots<T>(base: seq<T>, local: seq<T>, remote: seq<T>, lm: Alignment, rm: Alignment)
    requires |base| == |lm| == |rm|
    ensures Slots(base, local, remote, lm, rm, 0) == []
  {
  }

  lemma SlotAdded<T>(base: seq<T>, local: seq<T>, remote: seq<T>, lm: Alignment, rm: Alignment, k: nat)
    requires Aligns(base, local, lm) && Aligns(base, remote, rm) && 0 < k <= |base|
    ensures Slots(base, local, remote, lm, rm, k) == Slots(base, local, remote, lm, rm, k - 1)
      + if lm[k - 1].Some? || rm[k - 1].Some? then [KeptAs(base[k - 1], lm[k - 1].Some?, rm[k - 1].Some?)] else []
  {
    SlotOf(base[k - 1], BlockAt(local, lm[k - 1]), BlockAt(remote, rm[k - 1]));
  }

  lemma {:induction false} SlotsInOrder<T>(base: seq<T>, local: seq<T>, remote: seq<T>, lm: Alignment, rm: Alignment, k: nat) returns (at: seq<nat>)
    requires Aligns(base, local, lm) && Aligns(base, remote, rm) && k <= |base|
    ensures Places(at, KeptBelow(k, lm, rm)) && |at| == |Slots(base, local, remote, lm, rm, k)|
    ensures forall i :: 0 <= i < |at| ==> at[i] < k
    ensures forall i :: 0 <= i < |at| ==> Slots(base, local, remote, lm, rm, k)[i] == KeptAs(base[at[i]], lm[at[i]].Some?, rm[at[i]].Some?)
  {
    NoSlots(base, local, remote, lm, rm);
    hide Slots, Aligns, KeptAs;
    at := [];
    if k != 0 {
      at := SlotsInOrder(base, local, remote, lm, rm, k - 1);
      SlotAdded(base, local, remote, lm, rm, k);
      if lm[k - 1].Some? || rm[k - 1].Some? {
        assert KeptBelow(k, lm, rm) == KeptBelow(k - 1, lm, rm) + {k - 1};
        PlacesSnoc(at, KeptBelow(k - 1, lm, rm), k - 1);
        at := at + [k - 1];
      } else {
        assert KeptBelow(k, lm, rm) == KeptBelow(k - 1, lm, rm);
      }
    }
  }

  lemma {:induction false} MirrorHolds<T>(local: seq<T>, remote: seq<T>, usedL: set<nat>, usedR: set<nat>, n: nat, j: nat)
    requires n <= |local|
    ensures j in Mirror(local, remote, usedL, usedR, n) <==>
      j in usedR || exists i :: i in Below(n, usedL) && local[i] in remote && j == IndexOf(remote, local[i])
  {
    if n != 0 {
      MirrorHolds(local, remote, usedL, usedR, n - 1, j);
      if n - 1 in usedL {
        assert Below(n, usedL) == Below(n - 1, usedL);
      } else {
        assert Below(n, usedL) == Below(n - 1, usedL) + {n - 1};
        assert n - 1 in Below(n, usedL);
      }
    }
  }

  lemma NotBefore<T>(s: seq<T>, x: T, j: nat)
    requires j < |s| && x !in s[..j]
    ensures forall i :: 0 <= i < j ==> s[i] != x
  {
    forall i | 0 <= i < j
      ensures s[i] != x
    {
      assert s[..j][i] == s[i];
    }
  }

  lemma IndexOfIsFirst<T>(s: seq<T>, x: T, j: nat)
    requires x in s
    ensures j == IndexOf(s, x) <==> j < |s| && s[j] == x && x !in s[..j]
  {
    NotBefore(s, x, IndexOf(s, x));
    if j < |s| && x !in s[..j] {
      NotBefore(s, x, j);
    }
  }

  lemma MirroredIff<T>(local: seq<T>, remote: seq<T>, usedL: set<nat>, j: nat)
    requires j < |remote|
    ensures Mirrored(local, remote, Below(|local|, usedL), j) <==>
      exists i :: i in Below(|local|, usedL) && local[i] in remote && j == IndexOf(remote, local[i])
  {
    var added := Below(|local|, usedL);
    if Mirrored(local, remote, added, j) {
      var i :| i in added && local[i] == remote[j];
      IndexOfIsFirst(remote, local[i], j);
    }
    if i :| i in added && local[i] in remote && j == IndexOf(remote, local[i]) {
      IndexOfIsFirst(remote, local[i], j);
    }
  }

  lemma UsedArePaired<T>(base: seq<T>, side: seq<T>)
    ensures UsedBy(AlignToBase(base, side)) == Seconds(Lcs.LcsPairs(base, side))
    ensures forall i :: 0 <= i < |base| ==> (AlignToBase(base, side)[i].Some? <==> i in Firsts(Lcs.LcsPairs(base, side)))
    ensures forall i :: i in Firsts(Lcs.LcsPairs(base, side)) ==> i < |base|
  {
    hide AlignToBase, Lcs.LcsPairs;
    AlignToBaseAligns(base, side);
    PairsAreInside(base, side);
    var m, pairs := AlignToBase(base, side), Lcs.LcsPairs(base, side);
    forall i | 0 <= i < |base|
      ensures m[i].Some? <==> i in Firsts(pairs)
    {
      if m[i].Some? {
        assert (i, m[i].value) in pairs;
      }
      if i in Firsts(pairs) {
        var p :| p in pairs && p.0 == i;
        assert m[i] == Some(p.1);
      }
    }
    forall s | s in Seconds(pairs)
      ensures s in UsedBy(m)
    {
      var p :| p in pairs && p.1 == s;
      assert m[p.0] == Some(s);
    }
    forall s | s in UsedBy(m)
      ensures s in Seconds(pairs)
    {
      var i :| 0 <= i < |m| && m[i].Some? && m[i].value == s;
      assert (i, s) in pairs;
    }
  }

  lemma PairsAreInside<T>(a: seq<T>, b: seq<T>)
    ensures forall p :: p in Lcs.LcsPairs(a, b) ==> p.0 < |a| && p.1 < |b|
  {
    hide Lcs.Trace;
    Lcs.TraceIsCommon(a, b, |a|, |b|);
  }

  /** The order of the merged blocks, and which of them are marked as kept by one side. */
  lemma MergeOrder<T>(base: seq<T>, local: seq<T>, remote: seq<T>) returns (kept: seq<nat>, mine: seq<nat>, theirs: seq<nat>)
    ensures InOrder(base, local, remote, MergeLcs(base, local, remote).blocks, kept, mine, theirs)
  {
    hide AlignToBase, Lcs.LcsPairs, Slots, Inserts, Mirror, UsedBy, Mirrored, Firsts, Seconds, Aligns;
    AlignToBaseAligns(base, local);
    AlignToBaseAligns(base, remote);
    UsedArePaired(base, local);
    UsedArePaired(base, remote);
    var lm, rm := AlignToBase(base, local), AlignToBase(base, remote);
    var l, r := Lcs.LcsPairs(base, local), Lcs.LcsPairs(base, remote);
    kept := SlotsInOrder(base, local, remote, lm, rm, |base|);
    mine := InsertsInOrder(local, UsedBy(lm), |local|);
    var mirrored := Mirror(local, remote, UsedBy(lm), UsedBy(rm), |local|);
    theirs := InsertsInOrder(remote, mirrored, |remote|);
    assert KeptBelow(|base|, lm, rm) == Firsts(l) + Firsts(r);
    assert Below(|local|, UsedBy(lm)) == Unpaired(local, l);
    forall j | 0 <= j < |remote|
      ensures j in mirrored <==> j in Seconds(r) || Mirrored(local, remote, Unpaired(local, l), j)
    {
      MirrorHolds(local, remote, UsedBy(lm), UsedBy(rm), |local|, j);
      MirroredIff(local, remote, UsedBy(lm), j);
    }
    assert Below(|remote|, mirrored) == set j | j in Unpaired(remote, r) && !Mirrored(local, remote, Unpaired(local, l), j);
  }
}
