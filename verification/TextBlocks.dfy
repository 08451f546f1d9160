/** Markdown text as blank-line separated blocks: the splitter and the joiner. */
module TextBlocks {

  /** The characters with the Unicode property White_Space. */
  predicate IsWhite(c: char) {
    var n := c as int;
    9 <= n <= 13 || n == 0x20 || n == 0x85 || n == 0xA0 || n == 0x1680 || 0x2000 <= n <= 0x200A
    || n == 0x2028 || n == 0x2029 || n == 0x202F || n == 0x205F || n == 0x3000
  }

  predicate IsBlank(s: string) {
    forall i :: 0 <= i < |s| ==> IsWhite(s[i])
  }

  function TrimEnd(s: string): (t: string)
    ensures t <= s && (t != "" ==> !IsWhite(t[|t| - 1]))
    ensures forall i :: |t| <= i < |s| ==> IsWhite(s[i])
  {
    if s == "" || !IsWhite(s[|s| - 1]) then s else TrimEnd(s[..|s| - 1])
  }

  /** The position of the first newline, or the end of the text. */
  function LineEnd(s: string): (i: nat)
    ensures i <= |s| && '\n' !in s[..i] && (i < |s| ==> s[i] == '\n')
  {
    if s == "" || s[0] == '\n' then 0 else
      var i := LineEnd(s[1..]);
      assert s[..i + 1] == [s[0]] + s[1..][..i];
      i + 1
  }

  function StripCr(line: string): string {
    if line != "" && line[|line| - 1] == '\r' then line[..|line| - 1] else line
  }

  /** Lines end at a newline; one carriage return before that newline belongs to the line ending. */
  function Lines(s: string): seq<string>
    decreases |s|
  {
    if s == "" then []
    else
      var i := LineEnd(s);
      if i == |s| then [s] else [StripCr(s[..i])] + Lines(s[i + 1..])
  }

  /** The splitter after some lines: `cur` is the block being collected, each line closed by a newline. */
  function Gather(lines: seq<string>, cur: string): seq<string> {
    if lines == [] then Flush(cur)
    else if IsBlank(lines[0]) then Flush(cur) + Gather(lines[1..], "")
    else Gather(lines[1..], cur + lines[0] + "\n")
  }

  function Flush(cur: string): seq<string> {
    if cur == "" then [] else [TrimEnd(cur)]
  }

  /** A text without any non-blank line is kept as one block, unless it is empty. */
  function Split(text: string): seq<string> {
    var blocks := Gather(Lines(text), "");
    if blocks == [] && text != "" then [text] else blocks
  }

  function Joined(blocks: seq<string>): string {
    if blocks == [] then "" else if |blocks| == 1 then blocks[0] else blocks[0] + "\n\n" + Joined(blocks[1..])
  }

  function Join(blocks: seq<string>): string {
    var s := Joined(blocks);
    if s != "" && s[|s| - 1] != '\n' then s + "\n" else s
  }

  method SplitBlocks(text: string) returns (blocks: seq<string>)
    ensures blocks == Split(text)
  {
    var cur, lines := "", Lines(text);
    blocks := [];
    for i := 0 to |lines|
      invariant Gather(lines, "") == blocks + Gather(lines[i..], cur)
    {
      assert lines[i..][1..] == lines[i + 1..];
      if IsBlank(lines[i]) {
        if cur != "" {
          blocks := blocks + [TrimEnd(cur)];
          cur := "";
        }
      } else {
        cur := cur + lines[i];
        cur := cur + "\n";
      }
    }
    if cur != "" {
      blocks := blocks + [TrimEnd(cur)];
    }
    if |blocks| == 0 && text != "" {
      blocks := [text];
    }
  }

  // ---------------------------------------------------------------- well-formed blocks

  predicate NoBlankLine(lines: seq<string>) {
    forall i :: 0 <= i < |lines| ==> !IsBlank(lines[i])
  }

  /** A block as the splitter delivers it: closed by a visible character, without a blank line inside. */
  predicate Solid(b: string) {
    b != "" && !IsWhite(b[|b| - 1]) && NoBlankLine(Lines(b))
  }

  /** The line endings inside are bare newlines. */
  predicate NoCrLf(b: string) {
    forall i :: 0 <= i < |b| - 1 ==> !(b[i] == '\r' && b[i + 1] == '\n')
  }

  predicate Good(b: string) {
    Solid(b) && NoCrLf(b)
  }

  predicate AllGood(blocks: seq<string>) {
    forall i :: 0 <= i < |blocks| ==> Good(blocks[i])
  }

  predicate AllSolid(blocks: seq<string>) {
    forall i :: 0 <= i < |blocks| ==> Solid(blocks[i])
  }

  /** Every line closed by a newline. */
  function Closed(lines: seq<string>): string {
    if lines == [] then "" else lines[0] + "\n" + Closed(lines[1..])
  }

  /** The block with its carriage returns before newlines removed. */
  function Normal(b: string): string {
    TrimEnd(Closed(Lines(b)))
  }

  // ---------------------------------------------------------------- lines of a concatenation

  lemma {:induction false} LineEndOf(line: string, rest: string)
    requires '\n' !in line && (rest == "" || rest[0] == '\n')
    ensures LineEnd(line + rest) == |line|
  {
    if line == "" {
      assert line + rest == rest;
    } else {
      assert (line + rest)[1..] == line[1..] + rest;
      LineEndOf(line[1..], rest);
    }
  }

  /** A newline-free line in front of a text. */
  lemma LinesCons(line: string, rest: string)
    requires '\n' !in line
    ensures Lines(line + "\n" + rest) == [StripCr(line)] + Lines(rest)
  {
    var s := line + "\n" + rest;
    assert s == line + ("\n" + rest);
    LineEndOf(line, "\n" + rest);
    assert s[..|line|] == line && s[|line| + 1..] == rest;
  }

  lemma LinesLast(line: string)
    requires '\n' !in line && line != ""
    ensures Lines(line) == [line]
  {
    assert line + "" == line;
    LineEndOf(line, "");
  }

  /** A text is one newline-free line, or such a line, a newline and a rest. */
  lemma Unfold(b: string) returns (line: string, rest: string)
    requires '\n' in b
    ensures '\n' !in line && b == line + "\n" + rest && |rest| < |b|
  {
    var i := LineEnd(b);
    var k :| 0 <= k < |b| && b[k] == '\n';
    if i == |b| {
      assert false;
    }
    line, rest := b[..i], b[i + 1..];
  }

  ghost predicate EndsVisible(b: string) {
    b != "" && !IsWhite(b[|b| - 1])
  }

  lemma RestEndsVisible(line: string, rest: string)
    requires EndsVisible(line + "\n" + rest)
    ensures EndsVisible(rest)
  {
    var b := line + "\n" + rest;
    assert IsWhite('\n') && b[|line|] == '\n';
    assert rest != "" ==> b[|b| - 1] == rest[|rest| - 1];
  }

  /** A text that ends in a visible character, a newline, and more text: its lines are the lines of both parts. */
  lemma {:induction false} LinesAppend(b: string, rest: string)
    requires EndsVisible(b)
    ensures Lines(b + "\n" + rest) == Lines(b) + Lines(rest)
    decreases |b|
  {
    hide Lines, LineEnd;
    if '\n' in b {
      var line, tail := Unfold(b);
      RestEndsVisible(line, tail);
      LinesAppend(tail, rest);
      LinesCons(line, tail);
      LinesCons(line, tail + "\n" + rest);
      assert b + "\n" + rest == line + "\n" + (tail + "\n" + rest);
    } else {
      LinesLast(b);
      LinesCons(b, rest);
      assert IsWhite('\r') && StripCr(b) == b;
    }
  }

  lemma LinesOfBlankStart(rest: string)
    ensures Lines("\n" + rest) == [""] + Lines(rest)
  {
    LinesCons("", rest);
    assert "" + "\n" + rest == "\n" + rest;
  }

  lemma ClosedCons(line: string, lines: seq<string>)
    ensures Closed([line] + lines) == line + "\n" + Closed(lines)
  {
    assert ([line] + lines)[1..] == lines;
  }

  /** Closing the lines of a block again gives the block and a newline, exactly when no line ending held a carriage return. */
  lemma {:induction false} ClosedLines(b: string)
    requires EndsVisible(b)
    ensures |Closed(Lines(b))| <= |b| + 1
    ensures NoCrLf(b) ==> Closed(Lines(b)) == b + "\n"
    ensures !NoCrLf(b) ==> |Closed(Lines(b))| < |b| + 1
    ensures Lines(b) != []
    decreases |b|
  {
    if '\n' in b {
      var line, rest := Unfold(b);
      RestEndsVisible(line, rest);
      ClosedLines(rest);
      LinesCons(line, rest);
      ClosedCons(StripCr(line), Lines(rest));
      CrLfSplits(line, rest);
      if NoCrLf(b) {
        assert line + "\n" + (rest + "\n") == b + "\n";
      }
    } else {
      LinesLast(b);
      ClosedCons(b, []);
      assert NoCrLf(b);
    }
  }

  lemma CrLfSplits(line: string, rest: string)
    requires '\n' !in line
    ensures NoCrLf(line + "\n" + rest) <==> StripCr(line) == line && NoCrLf(rest)
  {
    var b, n := line + "\n" + rest, |line|;
    assert forall k :: 0 <= k < |rest| ==> rest[k] == b[n + 1 + k];
    if NoCrLf(b) {
      if n > 0 {
        assert b[n - 1] == line[n - 1] && b[n] == '\n';
      }
      forall k | 0 <= k < |rest| - 1
        ensures !(rest[k] == '\r' && rest[k + 1] == '\n')
      {
        assert rest[k] == b[n + 1 + k] && rest[k + 1] == b[n + 1 + k + 1];
      }
    }
    if StripCr(line) == line && NoCrLf(rest) {
      forall k | 0 <= k < |b| - 1
        ensures !(b[k] == '\r' && b[k + 1] == '\n')
      {
        if k + 1 < n {
          assert b[k + 1] == line[k + 1];
        } else if k + 1 == n {
          assert b[k] == line[n - 1];
        } else if k > n {
          assert b[k] == rest[k - n - 1] && b[k + 1] == rest[k - n - 1 + 1];
        }
      }
    }
  }

  lemma {:induction false} TrimEndIs(s: string, t: string)
    requires t <= s && (t != "" ==> !IsWhite(t[|t| - 1]))
    requires forall i :: |t| <= i < |s| ==> IsWhite(s[i])
    ensures TrimEnd(s) == t
  {
    if |t| < |s| {
      TrimEndIs(s[..|s| - 1], t);
    }
  }

  // ---------------------------------------------------------------- join, then split

  lemma {:induction false} GatherBlock(lines: seq<string>, rest: seq<string>, cur: string)
    requires NoBlankLine(lines)
    ensures Gather(lines + rest, cur) == Gather(rest, cur + Closed(lines))
  {
    if lines == [] {
      assert lines + rest == rest && cur + "" == cur;
    } else {
      assert (lines + rest)[1..] == lines[1..] + rest;
      GatherBlock(lines[1..], rest, cur + lines[0] + "\n");
      assert cur + lines[0] + "\n" + Closed(lines[1..]) == cur + Closed(lines);
    }
  }

  lemma {:induction false} JoinedEndsVisible(blocks: seq<string>)
    requires AllSolid(blocks) && blocks != []
    ensures Joined(blocks) != "" && !IsWhite(Joined(blocks)[|Joined(blocks)| - 1])
  {
    if |blocks| > 1 {
      JoinedEndsVisible(blocks[1..]);
    }
  }

  function Normals(blocks: seq<string>): (r: seq<string>)
    ensures |r| == |blocks|
    ensures forall i :: 0 <= i < |blocks| ==> r[i] == Normal(blocks[i])
  {
    if blocks == [] then [] else [Normal(blocks[0])] + Normals(blocks[1..])
  }

  lemma GatherClosed(b: string, rest: seq<string>)
    requires Solid(b)
    ensures Gather(Lines(b) + rest, "") == Gather(rest, Closed(Lines(b))) && Closed(Lines(b)) != ""
  {
    ClosedLines(b);
    GatherBlock(Lines(b), rest, "");
    assert "" + Closed(Lines(b)) == Closed(Lines(b));
    ClosedCons(Lines(b)[0], Lines(b)[1..]);
    assert Lines(b) == [Lines(b)[0]] + Lines(b)[1..];
  }

  lemma {:induction false} GatherJoined(blocks: seq<string>)
    requires AllSolid(blocks) && blocks != []
    ensures Gather(Lines(Joined(blocks) + "\n"), "") == Normals(blocks)
  {
    hide Lines, TrimEnd, Closed, IsWhite, NoBlankLine;
    var b := blocks[0];
    assert Solid(b);
    if |blocks| == 1 {
      LinesAppend(b, "");
      assert b + "\n" + "" == b + "\n";
      GatherClosed(b, []);
      LinesOfNone();
      assert Normals(blocks[1..]) == [];
    } else {
      var tail := Joined(blocks[1..]) + "\n";
      assert Joined(blocks) + "\n" == b + "\n" + ("\n" + tail);
      LinesAppend(b, "\n" + tail);
      LinesOfBlankStart(tail);
      GatherClosed(b, [""] + Lines(tail));
      GatherJoined(blocks[1..]);
      GatherAtBlank(Lines(tail), Closed(Lines(b)));
    }
  }

  lemma LinesOfNone()
    ensures Lines("") == []
  {
  }

  lemma GatherAtBlank(rest: seq<string>, cur: string)
    requires cur != ""
    ensures Gather([""] + rest, cur) == [TrimEnd(cur)] + Gather(rest, "")
  {
    assert ([""] + rest)[1..] == rest;
  }

  /** Splitting joined blocks gives the blocks back, up to carriage returns before newlines. */
  lemma SplitOfJoin(blocks: seq<string>)
    requires AllSolid(blocks)
    ensures Split(Join(blocks)) == Normals(blocks)
  {
    if blocks != [] {
      JoinedEndsVisible(blocks);
      GatherJoined(blocks);
    }
  }

  lemma NormalOfGood(b: string)
    requires Solid(b)
    ensures Normal(b) == b <==> NoCrLf(b)
  {
    ClosedLines(b);
    if NoCrLf(b) {
      TrimEndIs(b + "\n", b);
    } else {
      ClosedEndsInNewline(Lines(b));
    }
  }

  lemma {:induction false} ClosedEndsInNewline(lines: seq<string>)
    requires lines != []
    ensures Closed(lines) != "" && Closed(lines)[|Closed(lines)| - 1] == '\n'
    ensures |TrimEnd(Closed(lines))| < |Closed(lines)|
  {
    if |lines| > 1 {
      ClosedEndsInNewline(lines[1..]);
    }
    assert IsWhite('\n');
  }

  // ---------------------------------------------------------------- what the splitter delivers

  /** Lines that a text can have: no newline inside. */
  predicate Single(lines: seq<string>) {
    forall i :: 0 <= i < |lines| ==> '\n' !in lines[i]
  }

  /** The line and the next one are visible, and the line still ends in a carriage return, as happens only where two of them precede
      a newline. */
  predicate KeepsCr(lines: seq<string>, i: nat) {
    i + 1 < |lines| && !IsBlank(lines[i]) && !IsBlank(lines[i + 1]) && StripCr(lines[i]) != lines[i]
  }

  ghost predicate CrFree(lines: seq<string>) {
    forall i: nat :: !KeepsCr(lines, i)
  }

  lemma CrFreeCons(l: string, more: seq<string>)
    requires more != [] && !IsBlank(l) && !IsBlank(more[0])
    ensures CrFree([l] + more) <==> StripCr(l) == l && CrFree(more)
  {
    var lines := [l] + more;
    hide IsBlank, StripCr;
    assert lines[0] == l && lines[1] == more[0];
    assert forall i: nat :: KeepsCr(lines, i + 1) <==> KeepsCr(more, i);
    assert KeepsCr(lines, 0) <==> StripCr(l) != l;
    assert forall i: nat :: i > 0 && KeepsCr(lines, i) ==> KeepsCr(more, i - 1);
  }

  lemma CrFreeAtBlank(run: seq<string>, blank: string, rest: seq<string>)
    requires IsBlank(blank)
    ensures CrFree(run + [blank] + rest) <==> CrFree(run) && CrFree(rest)
  {
    var lines, n := run + [blank] + rest, |run| + 1;
    hide IsBlank, StripCr;
    assert forall i: nat :: KeepsCr(run, i) ==> KeepsCr(lines, i);
    assert forall i: nat :: KeepsCr(rest, i) ==> KeepsCr(lines, n + i);
    assert forall i: nat :: KeepsCr(lines, i) && i < n ==> KeepsCr(run, i);
    assert forall i: nat :: KeepsCr(lines, i) && i >= n ==> KeepsCr(rest, i - n);
  }

  lemma {:induction false} LinesAreSingle(s: string)
    ensures Single(Lines(s))
    decreases |s|
  {
    if s != "" {
      var i := LineEnd(s);
      if i < |s| {
        LinesAreSingle(s[i + 1..]);
      } else {
        assert s[..i] == s;
      }
    }
  }

  lemma TrimmedLine(l: string)
    requires '\n' !in l && !IsBlank(l)
    ensures TrimEnd(l + "\n") == TrimEnd(l) && Solid(TrimEnd(l)) && NoCrLf(TrimEnd(l))
  {
    var t := TrimEnd(l);
    assert IsWhite('\n');
    TrimEndIs(l + "\n", t);
    LinesLast(t);
    assert !IsWhite(t[|t| - 1]);
  }

  lemma TrimEndOfPrefixed(front: string, back: string)
    requires TrimEnd(back) != ""
    ensures TrimEnd(front + back) == front + TrimEnd(back)
  {
    var t := TrimEnd(back);
    assert (front + t)[|front + t| - 1] == t[|t| - 1];
    assert front + back == front + t + back[|t|..];
    TrimEndIs(front + back, front + t);
  }

  /** A non-empty run of visible lines gives a block of the expected form. */
  lemma {:induction false} RunIsSolid(lines: seq<string>)
    requires lines != [] && NoBlankLine(lines) && Single(lines)
    ensures Solid(TrimEnd(Closed(lines)))
    ensures NoCrLf(TrimEnd(Closed(lines))) <==> CrFree(lines)
  {
    hide Lines, IsWhite, NoCrLf, CrFree, IsBlank, StripCr, Solid, Closed, TrimEnd;
    var l, more := lines[0], lines[1..];
    assert lines == [l] + more;
    ClosedCons(l, more);
    assert !IsBlank(l) && '\n' !in l;
    if more == [] {
      TrimmedLine(l);
      ClosedOfNone();
      CrFreeOfOne(l);
      assert l + "\n" + "" == l + "\n" && lines == [l];
    } else {
      assert !IsBlank(more[0]) && NoBlankLine(more);
      RunIsSolid(more);
      SolidPrefixed(l, Closed(more));
      CrLfSplits(l, TrimEnd(Closed(more)));
      CrFreeCons(l, more);
    }
  }

  lemma ClosedOfNone()
    ensures Closed([]) == ""
  {
  }

  lemma CrFreeOfOne(l: string)
    ensures CrFree([l])
  {
  }

  lemma SolidPrefixed(l: string, back: string)
    requires '\n' !in l && !IsBlank(l) && Solid(TrimEnd(back))
    ensures TrimEnd(l + "\n" + back) == l + "\n" + TrimEnd(back) && Solid(l + "\n" + TrimEnd(back))
  {
    hide Lines, IsWhite, TrimEnd;
    var rest := TrimEnd(back);
    TrimEndOfPrefixed(l + "\n", back);
    var t := l + "\n" + rest;
    assert t[|t| - 1] == rest[|rest| - 1];
    LinesCons(l, rest);
    StripCrKeepsVisible(l);
  }

  lemma StripCrKeepsVisible(l: string)
    requires !IsBlank(l)
    ensures !IsBlank(StripCr(l))
  {
    var i :| 0 <= i < |l| && !IsWhite(l[i]);
    assert IsWhite('\r');
    assert StripCr(l)[i] == l[i];
  }

  lemma {:induction false} ClosedSnoc(x: seq<string>, line: string)
    ensures Closed(x + [line]) == Closed(x) + line + "\n"
  {
    if x == [] {
      assert x + [line] == [line] && [line][1..] == [];
    } else {
      ClosedSnoc(x[1..], line);
      assert (x + [line])[1..] == x[1..] + [line];
    }
  }

  lemma FlushIsSolid(run: seq<string>)
    requires NoBlankLine(run) && Single(run)
    ensures AllSolid(Flush(Closed(run)))
    ensures AllGood(Flush(Closed(run))) <==> CrFree(run)
  {
    if run != [] {
      RunIsSolid(run);
      ClosedCons(run[0], run[1..]);
      assert run == [run[0]] + run[1..] && Flush(Closed(run))[0] == TrimEnd(Closed(run));
    }
  }

  lemma {:induction false} GatherIsSolid(lines: seq<string>, run: seq<string>)
    requires Single(lines) && Single(run) && NoBlankLine(run)
    ensures AllSolid(Gather(lines, Closed(run)))
    ensures AllGood(Gather(lines, Closed(run))) <==> CrFree(run + lines)
    decreases |lines|
  {
    hide Lines, IsWhite, NoCrLf, TrimEnd, Flush, CrFree, Good, Solid, IsBlank;
    FlushIsSolid(run);
    if lines == [] {
      assert run + lines == run;
    } else {
      var more := lines[1..];
      if IsBlank(lines[0]) {
        GatherIsSolid(more, []);
        CrFreeAtBlank(run, lines[0], more);
        assert run + [lines[0]] + more == run + lines && [] + more == more;
        AllAppend(Flush(Closed(run)), Gather(more, ""));
      } else {
        ClosedSnoc(run, lines[0]);
        GatherIsSolid(more, run + [lines[0]]);
        assert run + [lines[0]] + more == run + lines;
      }
    }
  }

  lemma AllAppend(a: seq<string>, b: seq<string>)
    ensures AllSolid(a + b) <==> AllSolid(a) && AllSolid(b)
    ensures AllGood(a + b) <==> AllGood(a) && AllGood(b)
  {
    hide Good, Solid;
    var all := a + b;
    assert forall i :: 0 <= i < |a| ==> all[i] == a[i];
    assert forall i :: 0 <= i < |b| ==> all[|a| + i] == b[i];
  }

  lemma {:induction false} GatherFindsText(lines: seq<string>, cur: string)
    ensures Gather(lines, cur) == [] <==> cur == "" && forall i :: 0 <= i < |lines| ==> IsBlank(lines[i])
  {
    if lines != [] {
      if IsBlank(lines[0]) {
        GatherFindsText(lines[1..], "");
      } else {
        GatherFindsText(lines[1..], cur + lines[0] + "\n");
      }
    }
  }

  /** The text has a line with a visible character. */
  predicate HasText(text: string) {
    exists i :: 0 <= i < |Lines(text)| && !IsBlank(Lines(text)[i])
  }

  /** What the splitter delivers for any text with a visible line. */
  lemma SplitIsSolid(text: string)
    requires HasText(text)
    ensures Split(text) != [] && AllSolid(Split(text))
    ensures AllGood(Split(text)) <==> CrFree(Lines(text))
  {
    LinesAreSingle(text);
    GatherIsSolid(Lines(text), []);
    assert [] + Lines(text) == Lines(text);
    GatherFindsText(Lines(text), "");
  }

  /** The splitter undoes the joiner exactly on lists of well-formed blocks, and on one blank block closed by a newline. */
  lemma SplitJoinRoundTrip(blocks: seq<string>)
    ensures Split(Join(blocks)) == blocks <==>
      AllGood(blocks) || (|blocks| == 1 && blocks[0] != "" && !HasText(blocks[0]) && blocks[0][|blocks[0]| - 1] == '\n')
  {
    var text := Join(blocks);
    if AllGood(blocks) {
      SplitOfJoin(blocks);
      forall i | 0 <= i < |blocks|
        ensures Normal(blocks[i]) == blocks[i]
      {
        NormalOfGood(blocks[i]);
      }
    } else if Split(text) == blocks {
      if HasText(text) {
        SplitIsSolid(text);
        SplitOfJoin(blocks);
        forall i | 0 <= i < |blocks|
          ensures Good(blocks[i])
        {
          NormalOfGood(blocks[i]);
        }
      } else {
        GatherFindsText(Lines(text), "");
      }
    } else if |blocks| == 1 && blocks[0] != "" && blocks[0][|blocks[0]| - 1] == '\n' {
      assert text == blocks[0];
      GatherFindsText(Lines(text), "");
    }
  }

  /** A text read into blocks and written back reads as the same blocks, exactly when no carriage return is left before a newline inside
      a block, or, for a text without a visible line, when it is empty or closed by a newline. */
  lemma SplitIsStableIff(text: string)
    ensures Split(Join(Split(text))) == Split(text)
       <==> if HasText(text) then CrFree(Lines(text)) else text == "" || text[|text| - 1] == '\n'
  {
    hide Split, Lines, Join, NoCrLf;
    SplitJoinRoundTrip(Split(text));
    if HasText(text) {
      SplitIsSolid(text);
      if |Split(text)| == 1 {
        SolidHasText(Split(text)[0]);
      }
    } else {
      SplitOfBlank(text);
      if text != "" && Good(text) {
        SolidHasText(text);
      }
    }
  }

  lemma SolidHasText(b: string)
    requires Solid(b)
    ensures HasText(b)
  {
    ClosedLines(b);
    assert !IsBlank(Lines(b)[0]);
  }

  lemma SplitOfBlank(text: string)
    requires !HasText(text)
    ensures Split(text) == if text == "" then [] else [text]
  {
    GatherFindsText(Lines(text), "");
  }
}
