/** The three-way merge of Markdown texts: split into blocks, merge the blocks, join the result. */
module MarkdownMerge {
  import opened BlockMerge
  import opened TextBlocks

  /** A clean merge is a text; a conflicting one keeps its blocks, some of them marked. */
  datatype TextMerge = Clean(text: string) | Conflicted(blocks: seq<MergedBlock<string>>)

  /** The decision for one slot when all three sides have the same number of blocks. */
  function AlignedSlot(b: string, l: string, r: string): MergedBlock<string> {
    if l == r then Plain(l) else if l == b then Plain(r) else if r == b then Plain(l) else TwoSided(l, r)
  }

  function MergeAligned(base: seq<string>, local: seq<string>, remote: seq<string>): (m: Merge<string>)
    requires |base| == |local| == |remote|
    ensures |m.blocks| == |base|
    ensures forall i :: 0 <= i < |base| ==> m.blocks[i] == AlignedSlot(base[i], local[i], remote[i])
    ensures m.conflict == Marked(m.blocks)
  {
    var blocks := seq(|base|, i requires 0 <= i < |base| => AlignedSlot(base[i], local[i], remote[i]));
    Merge(blocks, Marked(blocks))
  }

  function MergeBlocks(base: seq<string>, local: seq<string>, remote: seq<string>): Merge<string> {
    if |base| == |local| == |remote| then MergeAligned(base, local, remote) else MergeLcs(base, local, remote)
  }

  function Unmark(blocks: seq<MergedBlock<string>>): (r: seq<string>)
    requires !Marked(blocks)
    ensures |r| == |blocks| && forall i :: 0 <= i < |r| ==> blocks[i] == Plain(r[i])
  {
    seq(|blocks|, i requires 0 <= i < |blocks| => blocks[i].block)
  }

  function Finish(m: Merge<string>): TextMerge {
    if m.conflict || Marked(m.blocks) then Conflicted(m.blocks) else Clean(Join(Unmark(m.blocks)))
  }

  function MergeMarkdown(base: string, local: string, remote: string): TextMerge {
    if local == remote then Clean(local)
    else if local == base then Clean(remote)
    else if remote == base then Clean(local)
    else Finish(MergeBlocks(Split(base), Split(local), Split(remote)))
  }

  method MergeBlocksAligned(base: seq<string>, local: seq<string>, remote: seq<string>)
    returns (out: seq<MergedBlock<string>>, conflict: bool)
    requires |base| == |local| == |remote|
    ensures Merge(out, conflict) == MergeAligned(base, local, remote)
  {
    out, conflict := [], false;
    for i := 0 to |base|
      invariant |out| == i && out == MergeAligned(base, local, remote).blocks[..i] && conflict == Marked(out)
    {
      var entry := AlignedSlot(base[i], local[i], remote[i]);
      MarkedConcat(out, [entry]);
      assert !entry.Plain? ==> ![entry][0].Plain?;
      conflict := conflict || entry.TwoSided?;
      out := out + [entry];
    }
  }

  method MergeMarkdownThreeWay(base: string, local: string, remote: string) returns (m: TextMerge)
    ensures m == MergeMarkdown(base, local, remote)
  {
    var baseBlocks := SplitBlocks(base);
    var localBlocks := SplitBlocks(local);
    var remoteBlocks := SplitBlocks(remote);
    if local == remote {
      return Clean(local);
    }
    if local == base {
      return Clean(remote);
    }
    if remote == base {
      return Clean(local);
    }
    var out, conflict;
    if |baseBlocks| == |localBlocks| && |baseBlocks| == |remoteBlocks| {
      out, conflict := MergeBlocksAligned(baseBlocks, localBlocks, remoteBlocks);
    } else {
      out, conflict := MergeBlocksLcs(baseBlocks, localBlocks, remoteBlocks);
    }
    m := Finish(Merge(out, conflict));
  }

  // ---------------------------------------------------------------- laws

  /** Neither merge ever reports a conflict without a marked block, or a marked block without a conflict. */
  lemma ConflictMeansMarked(base: seq<string>, local: seq<string>, remote: seq<string>)
    ensures MergeBlocks(base, local, remote).conflict == Marked(MergeBlocks(base, local, remote).blocks)
  {
    MergeCleanIffSameKept(base, local, remote);
  }

  /** Swapping the sides never decides whether the merge is clean. */
  lemma CleanlinessIsSymmetric(base: string, local: string, remote: string)
    ensures MergeMarkdown(base, local, remote).Clean? <==> MergeMarkdown(base, remote, local).Clean?
  {
    var b, l, r := Split(base), Split(local), Split(remote);
    ConflictMeansMarked(b, l, r);
    ConflictMeansMarked(b, r, l);
    if |b| == |l| == |r| {
      AlignedSwap(b, l, r);
    } else {
      MergeCleanIffSameKept(b, l, r);
      MergeCleanIffSameKept(b, r, l);
    }
  }

  lemma AlignedSwap(base: seq<string>, local: seq<string>, remote: seq<string>)
    requires |base| == |local| == |remote|
    ensures MergeAligned(base, local, remote).conflict == MergeAligned(base, remote, local).conflict
    ensures !MergeAligned(base, local, remote).conflict ==>
      MergeAligned(base, local, remote).blocks == MergeAligned(base, remote, local).blocks
  {
    var m, s := MergeAligned(base, local, remote).blocks, MergeAligned(base, remote, local).blocks;
    assert forall i :: 0 <= i < |base| ==> m[i].Plain? == s[i].Plain?;
  }

  /** Every block of a clean block merge is a block of one of the two sides. */
  lemma CleanBlocksComeFromSides(base: seq<string>, local: seq<string>, remote: seq<string>, i: nat)
    requires !Marked(MergeBlocks(base, local, remote).blocks)
    requires i < |MergeBlocks(base, local, remote).blocks|
    ensures Unmark(MergeBlocks(base, local, remote).blocks)[i] in local || Unmark(MergeBlocks(base, local, remote).blocks)[i] in remote
  {
    var out := MergeBlocks(base, local, remote).blocks;
    var x := Unmark(out)[i];
    if |base| == |local| == |remote| {
      assert local[i] in local && remote[i] in remote;
      assert out[i] == AlignedSlot(base[i], local[i], remote[i]);
    } else {
      MergeConservesBlocks(base, local, remote, Only(x));
      EntryIsCounted(out, i, x);
      CountPositive(local, x);
      CountPositive(remote, x);
    }
  }

  lemma {:induction false} EntryIsCounted(out: seq<MergedBlock<string>>, i: nat, x: string)
    requires i < |out| && out[i] == Plain(x)
    ensures CountMerged(out, Only(x)) > 0
  {
    if i < |out| - 1 {
      EntryIsCounted(out[..|out| - 1], i, x);
    }
  }

  /** Empty, or with a visible line and without carriage returns left before newlines inside a block. */
  ghost predicate Readable(text: string) {
    text == "" || (HasText(text) && CrFree(Lines(text)))
  }

  /** A clean merge of readable texts reads back as exactly the merged blocks. */
  lemma CleanMergeResplits(base: string, local: string, remote: string)
    requires Readable(local) && Readable(remote)
    requires !Marked(MergeBlocks(Split(base), Split(local), Split(remote)).blocks)
    ensures var blocks := Unmark(MergeBlocks(Split(base), Split(local), Split(remote)).blocks);
            Split(Join(blocks)) == blocks
  {
    hide Split, Join, MergeBlocks, Good, HasText;
    var blocks := Unmark(MergeBlocks(Split(base), Split(local), Split(remote)).blocks);
    ReadableIsGood(local);
    ReadableIsGood(remote);
    forall i | 0 <= i < |blocks|
      ensures Good(blocks[i])
    {
      CleanBlocksComeFromSides(Split(base), Split(local), Split(remote), i);
    }
    SplitJoinRoundTrip(blocks);
  }

  lemma ReadableIsGood(text: string)
    requires Readable(text)
    ensures AllGood(Split(text))
  {
    if text != "" {
      SplitIsSolid(text);
    }
  }

  /** Slot-wise, merging the merged blocks with remote again changes nothing. */
  lemma AlignedRemerge(base: seq<string>, local: seq<string>, remote: seq<string>)
    requires |base| == |local| == |remote| && !MergeAligned(base, local, remote).conflict
    ensures var m := MergeAligned(base, local, remote);
            MergeAligned(base, Unmark(m.blocks), remote) == m
            && (Unmark(m.blocks) == base ==> remote == base)
  {
    var m := MergeAligned(base, local, remote);
    var blocks := Unmark(m.blocks);
    forall i | 0 <= i < |base|
      ensures AlignedSlot(base[i], blocks[i], remote[i]) == m.blocks[i] && (blocks[i] == base[i] ==> remote[i] == base[i])
    {
      assert m.blocks[i] == AlignedSlot(base[i], local[i], remote[i]) == Plain(blocks[i]);
    }
    assert MergeAligned(base, blocks, remote).blocks == m.blocks;
  }

  /** Merging a clean index-aligned result with the same remote over the same base is clean and reads as the same blocks. */
  lemma RemergeIsStable(base: string, local: string, remote: string)
    requires Readable(local) && Readable(remote)
    requires |Split(base)| == |Split(local)| == |Split(remote)|
    requires MergeMarkdown(base, local, remote).Clean?
    ensures var merged := MergeMarkdown(base, local, remote).text;
            MergeMarkdown(base, merged, remote).Clean? && Split(MergeMarkdown(base, merged, remote).text) == Split(merged)
  {
    hide Split, Join, HasText, Lines;
    var b, l, r := Split(base), Split(local), Split(remote);
    var merged := MergeMarkdown(base, local, remote).text;
    if local != remote && local != base && remote != base {
      var m := MergeAligned(b, l, r);
      CleanMergeResplits(base, local, remote);
      AlignedRemerge(b, l, r);
      assert Split(merged) == Unmark(m.blocks);
    }
  }
}
