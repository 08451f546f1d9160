/** What the Markdown merge means: which text comes out, told on the texts and their blocks. */
module MarkdownMeaning {
  import opened Wrappers
  import opened BlockMerge
  import opened BlockOrder
  import opened MarkdownMerge
  import opened TextBlocks
  import Lcs

  // ---------------------------------------------------------------- no visible character is lost

  /** The characters that are not white space, in order. */
  function Visible(s: string): string {
    if s == "" then "" else Visible(s[..|s| - 1]) + if IsWhite(s[|s| - 1]) then "" else [s[|s| - 1]]
  }

  function VisibleIn(blocks: seq<string>): string {
    if blocks == [] then "" else Visible(blocks[0]) + VisibleIn(blocks[1..])
  }

  lemma {:induction false} VisibleConcat(s: string, t: string)
    ensures Visible(s + t) == Visible(s) + Visible(t)
  {
    if t == "" {
      assert s + t == s;
    } else {
      VisibleConcat(s, t[..|t| - 1]);
      assert (s + t)[..|s + t| - 1] == s + t[..|t| - 1];
    }
  }

  lemma {:induction false} BlankIsInvisible(s: string)
    requires IsBlank(s)
    ensures Visible(s) == ""
  {
    if s != "" {
      BlankIsInvisible(s[..|s| - 1]);
    }
  }

  lemma TrimmedVisible(s: string)
    ensures Visible(TrimEnd(s)) == Visible(s)
  {
    var t := TrimEnd(s);
    BlankIsInvisible(s[|t|..]);
    VisibleConcat(t, s[|t|..]);
    assert s == t + s[|t|..];
  }

  lemma VisibleOfOne(s: string)
    ensures VisibleIn([s]) == Visible(s)
  {
    assert VisibleIn([s]) == Visible(s) + VisibleIn([]);
  }

  lemma {:induction false} VisibleInConcat(x: seq<string>, y: seq<string>)
    ensures VisibleIn(x + y) == VisibleIn(x) + VisibleIn(y)
  {
    hide VisibleIn, Visible;
    if x == [] {
      assert x + y == y;
      NothingVisible();
    } else {
      var b, rest := x[0], x[1..];
      VisibleInConcat(rest, y);
      VisibleInCons(b, rest);
      VisibleInCons(b, rest + y);
      assert x == [b] + rest && x + y == [b] + (rest + y);
      Regroup(Visible(b), VisibleIn(rest), VisibleIn(y));
    }
  }

  lemma Regroup(s: string, t: string, u: string)
    ensures s + (t + u) == (s + t) + u
  {
  }

  lemma NothingVisible()
    ensures VisibleIn([]) == ""
  {
  }

  lemma VisibleInCons(b: string, rest: seq<string>)
    ensures VisibleIn([b] + rest) == Visible(b) + VisibleIn(rest)
  {
    assert ([b] + rest)[1..] == rest;
  }

  lemma {:induction false} LinesVisible(s: string)
    ensures VisibleIn(Lines(s)) == Visible(s)
    decreases |s|
  {
    hide Visible, Lines, LineEnd, StripCr, VisibleIn;
    if s == "" {
      NoLinesVisible();
    } else if LineEnd(s) == |s| {
      OnlyLine(s);
      VisibleOfOne(s);
    } else {
      var i := LineEnd(s);
      LinesVisible(s[i + 1..]);
      FirstLineVisible(s[..i], s[i + 1..]);
      VisibleInCons(StripCr(s[..i]), Lines(s[i + 1..]));
      LinesSplit(s);
    }
  }

  lemma NoLinesVisible()
    ensures VisibleIn(Lines("")) == "" == Visible("")
  {
  }

  lemma OnlyLine(s: string)
    requires s != "" && LineEnd(s) == |s|
    ensures Lines(s) == [s]
  {
  }

  lemma LinesSplit(s: string)
    requires LineEnd(s) < |s|
    ensures var i := LineEnd(s); Lines(s) == [StripCr(s[..i])] + Lines(s[i + 1..]) && s == s[..i] + ("\n" + s[i + 1..])
  {
    hide Lines, LineEnd, StripCr;
    var i := LineEnd(s);
    CutAt(s, i);
    LinesCons(s[..i], s[i + 1..]);
  }

  lemma CutAt(s: string, i: nat)
    requires i < |s| && s[i] == '\n'
    ensures s == s[..i] + "\n" + s[i + 1..] && s == s[..i] + ("\n" + s[i + 1..])
  {
  }

  lemma FirstLineVisible(line: string, rest: string)
    ensures Visible(line + ("\n" + rest)) == Visible(StripCr(line)) + Visible(rest)
  {
    VisibleConcat(line, "\n" + rest);
    VisibleConcat("\n", rest);
    BlankIsInvisible("\n");
    CrInvisible(line);
    hide Visible, StripCr;
  }

  lemma CrInvisible(line: string)
    ensures Visible(StripCr(line)) == Visible(line)
  {
  }

  lemma FlushVisible(cur: string)
    ensures VisibleIn(Flush(cur)) == Visible(cur)
  {
    TrimmedVisible(cur);
    VisibleOfOne(TrimEnd(cur));
  }

  lemma ClosedLineVisible(cur: string, line: string)
    ensures Visible(cur + line + "\n") == Visible(cur) + Visible(line)
  {
    VisibleConcat(cur + line, "\n");
    VisibleConcat(cur, line);
    BlankIsInvisible("\n");
  }

  lemma {:induction false} GatherVisible(lines: seq<string>, cur: string)
    ensures VisibleIn(Gather(lines, cur)) == Visible(cur) + VisibleIn(lines)
    decreases |lines|
  {
    FlushVisible(cur);
    hide Flush, Visible, IsBlank, VisibleIn;
    if lines == [] {
      NothingVisible();
    } else {
      var line, rest := lines[0], lines[1..];
      assert lines == [line] + rest;
      VisibleInCons(line, rest);
      if IsBlank(line) {
        BlankIsInvisible(line);
        BlankIsInvisible("");
        GatherVisible(rest, "");
        VisibleInConcat(Flush(cur), Gather(rest, ""));
      } else {
        GatherVisible(rest, cur + line + "\n");
        ClosedLineVisible(cur, line);
        Regroup(Visible(cur), Visible(line), VisibleIn(rest));
      }
    }
  }

  /** Splitting keeps every visible character, in order. */
  lemma SplitKeepsVisible(text: string)
    ensures VisibleIn(Split(text)) == Visible(text)
  {
    LinesVisible(text);
    GatherVisible(Lines(text), "");
    if Gather(Lines(text), "") == [] && text != "" {
      VisibleOfOne(text);
    }
  }

  /** How a list of blocks is written: each but the last followed by exactly one blank line, the last by one newline if it has none. */
  lemma JoinIs(block: string, rest: seq<string>)
    ensures Join([]) == ""
    ensures rest != [] ==> Join([block] + rest) == block + "\n\n" + Join(rest)
    ensures Join([block]) == if block == "" || block[|block| - 1] == '\n' then block else block + "\n"
  {
    if rest != [] {
      assert ([block] + rest)[1..] == rest;
      var s, t := Joined([block] + rest), Joined(rest);
      assert s == block + "\n\n" + t;
      if t != "" {
        assert s[|s| - 1] == t[|t| - 1];
      }
      assert s + "\n" == block + "\n\n" + (t + "\n");
    }
  }

  // ---------------------------------------------------------------- which text a merge gives

  /** A text that only one side changed, or both in the same way, is that side's text. */
  lemma OneSidedTextMerge(base: string, local: string, remote: string)
    requires local == remote || local == base || remote == base
    ensures MergeMarkdown(base, local, remote) == Clean(if local == base then remote else local)
  {
  }

  /** At this block the two sides differ from each other and from the base. */
  ghost predicate Contested(b: seq<string>, l: seq<string>, r: seq<string>, i: int)
    requires |b| == |l| == |r|
  {
    0 <= i < |b| && l[i] != r[i] && l[i] != b[i] && r[i] != b[i]
  }

  /** The block of the side that changed it. */
  function Changed(b: string, l: string, r: string): string {
    if l == b then r else l
  }

  /** With as many blocks on all sides: a conflict exactly when some block is contested, which then stands there in both versions; otherwise
      the text of the changed blocks. */
  lemma AlignedTextMerge(base: string, local: string, remote: string)
    requires local != remote && local != base && remote != base && |Split(base)| == |Split(local)| == |Split(remote)|
    ensures var b, l, r, m := Split(base), Split(local), Split(remote), MergeMarkdown(base, local, remote);
      && (m.Conflicted? <==> exists i :: Contested(b, l, r, i))
      && (m.Clean? ==> m.text == Join(seq(|b|, i requires 0 <= i < |b| => Changed(b[i], l[i], r[i]))))
      && (m.Conflicted? ==> |m.blocks| == |b| && forall i :: 0 <= i < |b| ==>
            m.blocks[i] == if Contested(b, l, r, i) then TwoSided(l[i], r[i]) else Plain(Changed(b[i], l[i], r[i])))
  {
    hide Split, Join;
    var b, l, r := Split(base), Split(local), Split(remote);
    var m := MergeAligned(b, l, r);
    forall i | 0 <= i < |b|
      ensures m.blocks[i].Plain? <==> !Contested(b, l, r, i)
      ensures !Contested(b, l, r, i) ==> m.blocks[i] == Plain(Changed(b[i], l[i], r[i]))
    {
    }
    if !Marked(m.blocks) {
      assert Unmark(m.blocks) == seq(|b|, i requires 0 <= i < |b| => Changed(b[i], l[i], r[i]));
    }
  }

  /** With different numbers of blocks: a conflict exactly when the two sides do not pair the same base blocks, and the blocks in the order of
      the three stretches either way. */
  lemma AlongsideTextMerge(base: string, local: string, remote: string) returns (kept: seq<nat>, mine: seq<nat>, theirs: seq<nat>)
    requires local != remote && local != base && remote != base && !(|Split(base)| == |Split(local)| == |Split(remote)|)
    ensures var b, l, r, m := Split(base), Split(local), Split(remote), MergeMarkdown(base, local, remote);
      && (m.Clean? <==> Firsts(Lcs.LcsPairs(b, l)) == Firsts(Lcs.LcsPairs(b, r)))
      && (m.Clean? ==> exists blocks :: m.text == Join(blocks) && InOrder(b, l, r, Plains(blocks), kept, mine, theirs))
      && (m.Conflicted? ==> InOrder(b, l, r, m.blocks, kept, mine, theirs))
  {
    hide Split, Join, InOrder, Firsts, Lcs.LcsPairs, MergeLcs;
    var b, l, r := Split(base), Split(local), Split(remote);
    kept, mine, theirs := MergeOrder(b, l, r);
    var m := MergeLcs(b, l, r);
    MergeCleanIffSameKept(b, l, r);
    SameFirsts(b, l, r);
    ConflictMeansMarked(b, l, r);
    if !Marked(m.blocks) {
      assert Plains(Unmark(m.blocks)) == m.blocks;
    }
  }

  lemma SameFirsts(b: seq<string>, l: seq<string>, r: seq<string>)
    ensures Firsts(Lcs.LcsPairs(b, l)) == Firsts(Lcs.LcsPairs(b, r)) <==>
      forall i :: 0 <= i < |b| ==> (AlignToBase(b, l)[i].Some? <==> AlignToBase(b, r)[i].Some?)
  {
    hide AlignToBase, Lcs.LcsPairs, Firsts;
    UsedArePaired(b, l);
    UsedArePaired(b, r);
    var x, y := Firsts(Lcs.LcsPairs(b, l)), Firsts(Lcs.LcsPairs(b, r));
    if forall i :: 0 <= i < |b| ==> (AlignToBase(b, l)[i].Some? <==> AlignToBase(b, r)[i].Some?) {
      assert forall i :: i in x <==> i in y;
    }
  }
}
