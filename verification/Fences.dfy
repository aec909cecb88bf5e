/** A token in a fence, on one line or over several, among lines that hold
    none: nothing is a mention, and it is stored as text. */
module Fences {
  import opened Bytes
  import opened Tokens
  import opened Rewriting
  import opened Markdown
  import opened Offsets
  import opened Blocks
  import opened Mentions
  import opened CheckMentions
  import opened Contexts
  import opened Places
  import opened StoredTokens

  // ---- Lines, joined ----------------------------------------------------------------

  lemma FirstNewline(x: Text, rest: Text)
    requires NEWLINE !in x
    ensures IndexFrom(x, NEWLINE, 0) == |x|
    ensures var s := x + [NEWLINE] + rest; IndexFrom(s, NEWLINE, 0) == |x| && s[..|x|] == x && s[|x| + 1..] == rest
  {
    hide IndexFrom;
    var s := x + [NEWLINE] + rest;
    assert s[|x|] == NEWLINE && forall k :: 0 <= k < |x| ==> s[k] == x[k];
  }

  lemma {:induction false} LinesJoined(lines: seq<Text>)
    requires |lines| > 0 && forall k :: 0 <= k < |lines| ==> NEWLINE !in lines[k]
    ensures Lines(Joined(lines)) == lines
  {
    hide IndexFrom;
    if |lines| == 1 {
      FirstNewline(lines[0], []);
    } else {
      var rest := Joined(lines[1..]);
      FirstNewline(lines[0], rest);
      LinesJoined(lines[1..]);
      assert Joined(lines) == lines[0] + [NEWLINE] + rest;
      assert [lines[0]] + lines[1..] == lines;
    }
  }

  // ---- The other lines -----------------------------------------------------------------

  /** A line that neither holds a token nor has a part in a fence. */
  predicate IsOther(line: Text) {
    LESS !in line && BACKTICK !in line && NEWLINE !in line
  }

  predicate AllOther(lines: seq<Text>) {
    forall k :: 0 <= k < |lines| ==> IsOther(lines[k])
  }

  ghost predicate ShowsNone(nodes: seq<Inline>) {
    Shown(nodes) == [] && Live(nodes) == []
  }

  lemma OtherIsRow(line: Text)
    requires IsOther(line)
    ensures FormOf(line).Row?
  {
    hide SkipBlank, TrimmedLen, ItemAt, HasAt;
    var at := SkipBlank(line, 0);
    if HasAt(line, at, TICKS) {
      FirstIs(line, at, TICKS);
      InBounds(line, TICKS, at);
    }
  }

  lemma OtherShows(line: Text, from: nat, at: nat)
    requires IsOther(line) && from <= |line|
    ensures ShowsNone(Inlines(line[from..], at))
  {
    hide Inlines, TokenLen, Shown, Live;
    NoLessNoToken(line[from..]);
    NoTokensShown(line[from..], at);
  }

  lemma RowAdds(blocks: seq<Block>, kind: RowKind, row: seq<Inline>)
    requires ShowsNone(Walk(blocks)) && ShowsNone(row)
    ensures ShowsNone(Walk(AddRow(blocks, kind, row)))
  {
    hide Walk, AddRow, Shown, Live;
    WalkAdded(blocks, kind, row);
    ShownSplit(Walk(blocks), row);
    LiveSplit(Walk(blocks), row);
  }

  lemma OtherStep(lines: seq<Text>, i: nat, blocks: seq<Block>) returns (more: seq<Block>)
    requires i < |lines| && IsOther(lines[i]) && ShowsNone(Walk(blocks))
    ensures BlocksFrom(lines, i, blocks) == BlocksFrom(lines, i + 1, more) && ShowsNone(Walk(more))
  {
    hide Inlines, FormOf, Walk, AddRow, ShowsNone, IsOther, LineStart;
    OtherIsRow(lines[i]);
    var form := FormOf(lines[i]);
    var row := Inlines(lines[i][form.from..], LineStart(lines, i) + form.from);
    OtherShows(lines[i], form.from, LineStart(lines, i) + form.from);
    RowAdds(blocks, form.kind, row);
    more := AddRow(blocks, form.kind, row);
  }

  /** Over other lines the blocks go on showing nothing. */
  lemma {:induction false} OthersShow(lines: seq<Text>, i: nat, j: nat, blocks: seq<Block>) returns (more: seq<Block>)
    requires i <= j <= |lines| && ShowsNone(Walk(blocks)) && forall k :: i <= k < j ==> IsOther(lines[k])
    ensures BlocksFrom(lines, i, blocks) == BlocksFrom(lines, j, more) && ShowsNone(Walk(more))
    decreases j - i
  {
    hide *;
    more := blocks;
    if i < j {
      more := OtherStep(lines, i, blocks);
      more := OthersShow(lines, i + 1, j, more);
    }
  }

  // ---- The fence's own lines -----------------------------------------------------------------

  lemma TicksAtStart(rest: Text)
    ensures HasAt(TICKS + rest, 0, TICKS) && SkipBlank(TICKS + rest, 0) == 0
  {
    assert (TICKS + rest)[0] == BACKTICK && (TICKS + rest)[0..3] == TICKS;
  }

  /** "```code```" */
  lemma OneLineForm(code: Text)
    requires |code| > 0
    ensures FormOf(TICKS + code + TICKS) == OneLineFence(code)
  {
    hide HasAt, SkipBlank;
    var line := TICKS + code + TICKS;
    assert line == TICKS + (code + TICKS);
    TicksAtStart(code + TICKS);
    assert line[|line| - 1] == BACKTICK && TrimmedLen(line, |line|) == |line|;
    assert HasAt(line, |line| - 3, TICKS) by {
      TicksAtEnd(line, TICKS + code);
    }
    assert line[3..|line| - 3] == code;
  }

  lemma TicksAtEnd(line: Text, start: Text)
    requires line == start + TICKS
    ensures |line| >= 3 && HasAt(line, |line| - 3, TICKS)
  {
  }

  /** "```" and what names the language. */
  predicate IsInfo(info: Text) {
    forall k :: 0 <= k < |info| ==> !IsBlank(info[k]) && info[k] != BACKTICK
  }

  lemma OpeningForm(info: Text)
    requires IsInfo(info)
    ensures FormOf(TICKS + info) == OpensFence
  {
    hide HasAt, SkipBlank, TrimmedLen, IsBlank;
    var line := TICKS + info;
    TicksAtStart(info);
    assert forall k :: 3 <= k < |line| ==> line[k] == info[k - 3];
    var end := TrimmedLen(line, |line|);
    if end >= 7 && HasAt(line, end - 3, TICKS) {
      FirstIs(line, end - 3, TICKS);
    }
  }

  lemma ClosingForm()
    ensures IsFenceClose(TICKS)
  {
    TicksAtStart([]);
    assert TICKS + [] == TICKS;
  }

  /** A fence's lines show nothing, whatever they hold, up to the line that
      closes it or to the end. */
  lemma FenceShows(lines: seq<Text>, i: nat, j: nat, blocks: seq<Block>) returns (more: seq<Block>)
    requires i < j <= |lines| && FormOf(lines[i]) == OpensFence && ShowsNone(Walk(blocks))
    requires j < |lines| ==> IsFenceClose(lines[j])
    requires forall k :: i < k < j ==> !IsFenceClose(lines[k])
    ensures BlocksFrom(lines, i, blocks) == BlocksFrom(lines, if j < |lines| then j + 1 else j, more)
    ensures ShowsNone(Walk(more))
  {
    hide Inlines, FormOf, Walk, ShowsNone, IsFenceClose, Joined, Rewrite, FenceEnd;
    assert FenceEnd(lines, i + 1) == j;
    var text := TokensAsText(Joined(lines[i + 1..j]));
    more := blocks + [Fence(text)];
    WalkFence(blocks, text);
  }

  lemma OneLineShows(lines: seq<Text>, i: nat, code: Text, blocks: seq<Block>) returns (more: seq<Block>)
    requires i < |lines| && FormOf(lines[i]) == OneLineFence(code) && ShowsNone(Walk(blocks))
    ensures BlocksFrom(lines, i, blocks) == BlocksFrom(lines, i + 1, more) && ShowsNone(Walk(more))
  {
    hide Inlines, FormOf, Walk, ShowsNone, Rewrite;
    more := blocks + [Fence(TokensAsText(code))];
    WalkFence(blocks, TokensAsText(code));
  }

  lemma NoBlocksShow()
    ensures ShowsNone(Walk([]))
  {
  }

  lemma Whole(lines: seq<Text>, blocks: seq<Block>)
    requires |lines| > 0 && forall k :: 0 <= k < |lines| ==> NEWLINE !in lines[k]
    requires BlocksFrom(lines, 0, []) == BlocksFrom(lines, |lines|, blocks) && ShowsNone(Walk(blocks))
    ensures ShowsNone(Nodes(Joined(lines)))
  {
    hide ShowsNone, Joined, Lines, Walk;
    LinesJoined(lines);
    assert BlocksFrom(lines, |lines|, blocks) == blocks;
  }

  /** Nothing in a fence of one line is a mention, whatever it holds. */
  lemma OneLineFenceHides(before: seq<Text>, code: Text, after: seq<Text>)
    requires AllOther(before) && AllOther(after) && |code| > 0 && NEWLINE !in code
    ensures ShowsNone(Nodes(Joined(before + [TICKS + code + TICKS] + after)))
  {
    hide ShowsNone, Joined, Lines, Walk, BlocksFrom, FormOf, Nodes;
    var line := TICKS + code + TICKS;
    var lines, i := before + [line] + after, |before|;
    assert NEWLINE !in line && lines[i] == line;
    OneLineForm(code);
    NoBlocksShow();
    var blocks := OthersShow(lines, 0, i, []);
    blocks := OneLineShows(lines, i, code, blocks);
    assert forall k :: i + 1 <= k < |lines| ==> lines[k] == after[k - (i + 1)];
    blocks := OthersShow(lines, i + 1, |lines|, blocks);
    Whole(lines, blocks);
  }

  /** What follows a fence's lines: nothing, or the line that closes it and
      other lines. */
  ghost predicate EndsFence(ending: seq<Text>) {
    |ending| > 0 ==> ending[0] == TICKS && AllOther(ending[1..])
  }

  /** Nor in a fence over several lines, closed or not. */
  lemma FenceHides(before: seq<Text>, info: Text, code: seq<Text>, ending: seq<Text>)
    requires AllOther(before) && EndsFence(ending) && IsInfo(info)
    requires forall k :: 0 <= k < |code| ==> NEWLINE !in code[k] && !IsFenceClose(code[k])
    ensures ShowsNone(Nodes(Joined(before + [TICKS + info] + code + ending)))
  {
    hide *;
    var lines := before + [TICKS + info] + code + ending;
    FenceLines(before, TICKS + info, code, ending);
    FenceOneLines(lines, before, info, code);
    OpeningForm(info);
    ClosingForm();
    var blocks := FencedShow(lines, |before|, |before| + 1 + |code|);
    Whole(lines, blocks);
  }

  /** Other lines, a fence, and other lines again. */
  lemma FencedShow(lines: seq<Text>, i: nat, j: nat) returns (blocks: seq<Block>)
    requires i < j <= |lines| && FormOf(lines[i]) == OpensFence && (j < |lines| ==> IsFenceClose(lines[j]))
    requires forall k :: 0 <= k < i ==> IsOther(lines[k])
    requires forall k :: i < k < j ==> !IsFenceClose(lines[k])
    requires forall k :: j < k < |lines| ==> IsOther(lines[k])
    ensures BlocksFrom(lines, 0, []) == BlocksFrom(lines, |lines|, blocks) && ShowsNone(Walk(blocks))
  {
    hide *;
    NoBlocksShow();
    blocks := OthersShow(lines, 0, i, []);
    blocks := FenceShows(lines, i, j, blocks);
    if j < |lines| {
      blocks := OthersShow(lines, j + 1, |lines|, blocks);
    }
  }

  lemma FenceOneLines(lines: seq<Text>, before: seq<Text>, info: Text, code: seq<Text>)
    requires IsInfo(info)
    requires var i, j := |before|, |before| + 1 + |code|;
             && j <= |lines| && lines[i] == TICKS + info && (j < |lines| ==> lines[j] == TICKS)
             && (forall k :: 0 <= k < i ==> IsOther(lines[k])) && (forall k :: j < k < |lines| ==> IsOther(lines[k]))
             && (forall k :: i < k < j ==> NEWLINE !in lines[k])
    ensures forall k :: 0 <= k < |lines| ==> NEWLINE !in lines[k]
  {
    InfoOneLine(info);
  }

  lemma InfoOneLine(info: Text)
    requires IsInfo(info)
    ensures NEWLINE !in TICKS + info
  {
    assert IsBlank(NEWLINE);
  }

  lemma FenceLines(before: seq<Text>, opening: Text, code: seq<Text>, ending: seq<Text>)
    requires EndsFence(ending)
    ensures var lines := before + [opening] + code + ending;
            var i, j := |before|, |before| + 1 + |code|;
            && |lines| == j + |ending| && lines[i] == opening && (j < |lines| ==> lines[j] == TICKS)
            && (forall k :: 0 <= k < i ==> lines[k] == before[k])
            && (forall k :: i < k < j ==> lines[k] == code[k - i - 1])
            && (forall k :: j < k < |lines| ==> IsOther(lines[k]))
            && (AllOther(before) ==> forall k :: 0 <= k < i ==> IsOther(lines[k]))
  {
    hide IsOther;
    var lines, j := before + [opening] + code + ending, |before| + 1 + |code|;
    forall k | j < k < |lines| ensures IsOther(lines[k]) {
      assert lines[k] == ending[1..][k - j - 1];
    }
  }

  // ---- What is stored ------------------------------------------------------------------------

  /** The lines before one, with their line ends. */
  function Head(before: seq<Text>): Text {
    if |before| == 0 then [] else before[0] + [NEWLINE] + Head(before[1..])
  }

  function Tail(after: seq<Text>): Text {
    if |after| == 0 then [] else [NEWLINE] + after[0] + Tail(after[1..])
  }

  lemma {:induction false} JoinedTail(line: Text, after: seq<Text>)
    ensures Joined([line] + after) == line + Tail(after)
    decreases |after|
  {
    if |after| == 0 {
      assert [line] + after == [line];
    } else {
      assert ([line] + after)[1..] == [after[0]] + after[1..] == after;
      JoinedTail(after[0], after[1..]);
      assert Joined([line] + after) == line + [NEWLINE] + Joined(after);
      assert line + [NEWLINE] + (after[0] + Tail(after[1..])) == line + ([NEWLINE] + after[0] + Tail(after[1..]));
    }
  }

  lemma {:induction false} JoinedAround(before: seq<Text>, line: Text, after: seq<Text>)
    ensures Joined(before + [line] + after) == Head(before) + line + Tail(after)
  {
    if |before| == 0 {
      assert before + [line] + after == [line] + after;
      JoinedTail(line, after);
      assert [] + line + Tail(after) == line + Tail(after);
    } else {
      var lines := before + [line] + after;
      assert lines[1..] == before[1..] + [line] + after;
      JoinedAround(before[1..], line, after);
      assert Joined(lines) == before[0] + [NEWLINE] + Joined(lines[1..]);
      assert before[0] + [NEWLINE] + (Head(before[1..]) + line + Tail(after))
        == (before[0] + [NEWLINE] + Head(before[1..])) + line + Tail(after);
    }
  }

  lemma {:induction false} HeadHolds(lines: seq<Text>)
    requires forall k :: 0 <= k < |lines| ==> LESS !in lines[k]
    ensures LESS !in Head(lines) && LESS !in Tail(lines)
  {
    if |lines| > 0 {
      HeadHolds(lines[1..]);
    }
  }

  /** A token on a line of a message that holds no other "<", where the parse
      shows nothing: it is stored as text and tells nobody. */
  lemma HiddenLine(dir: Directory, before: seq<Text>, x: Text, t: Text, y: Text, after: seq<Text>, stored: Text)
    requires IsToken(t) && LESS !in x && LESS !in y && forall k :: 0 <= k < |before| ==> LESS !in before[k]
    requires forall k :: 0 <= k < |after| ==> LESS !in after[k]
    requires ShowsNone(Nodes(Joined(before + [x + t + y] + after)))
    requires IsStored(dir, Joined(before + [x + t + y] + after), stored)
    ensures stored == Joined(before + [x + PlainText(PartsOf(t)) + y] + after) && ScanMentions(stored, 0) == []
  {
    hide TokenLen, IsToken, PartsOf, PlainText, Shown, Live, Nodes, ScanMentions, IsStored, Joined, Head, Tail;
    var u, v := Head(before) + x, y + Tail(after);
    var words := PlainText(PartsOf(t));
    HeadHolds(before);
    HeadHolds(after);
    JoinedAround(before, x + t + y, after);
    JoinedAround(before, x + words + y, after);
    Regroup(Head(before), x, t, y, Tail(after));
    Regroup(Head(before), x, words, y, Tail(after));
    HiddenIsText(dir, u, t, v, stored);
  }

  lemma Regroup(h: Text, x: Text, t: Text, y: Text, z: Text)
    ensures h + (x + t + y) + z == (h + x) + t + (y + z)
  {
  }

  /** A token in a fence of one line is stored as text and tells nobody. */
  lemma OneLineFenceStored(dir: Directory, before: seq<Text>, x: Text, t: Text, y: Text, after: seq<Text>, stored: Text)
    requires AllOther(before) && AllOther(after) && IsToken(t) && LESS !in x + y && NEWLINE !in x + y
    requires IsStored(dir, Joined(before + [TICKS + x + t + y + TICKS] + after), stored)
    ensures stored == Joined(before + [TICKS + x + PlainText(PartsOf(t)) + y + TICKS] + after)
    ensures ScanMentions(stored, 0) == []
  {
    hide TokenLen, IsToken, PartsOf, PlainText, Shown, Live, Nodes, ScanMentions, IsStored, Joined, ShowsNone;
    TokenShape(t);
    var words := PlainText(PartsOf(t));
    assert TICKS + (x + t + y) + TICKS == TICKS + x + t + y + TICKS == (TICKS + x) + t + (y + TICKS);
    assert TICKS + x + words + y + TICKS == (TICKS + x) + words + (y + TICKS);
    OneLineFenceHides(before, x + t + y, after);
    HiddenLine(dir, before, TICKS + x, t, y + TICKS, after, stored);
  }

  lemma {:induction false} SkippedAreBlank(s: Text, i: nat)
    requires i <= |s|
    ensures forall k :: i <= k < SkipBlank(s, i) ==> IsBlank(s[k])
    decreases |s| - i
  {
    if i < |s| && IsBlank(s[i]) {
      SkippedAreBlank(s, i + 1);
    }
  }

  /** A line with a token closes no fence. */
  lemma TokenLineStays(line: Text, p: nat)
    requires p < |line| && line[p] == LESS
    ensures !IsFenceClose(line)
  {
    hide SkipBlank;
    var at := SkipBlank(line, 0);
    SkippedAreBlank(line, 0);
    if HasAt(line, at, TICKS) {
      SkippedAreBlank(line, at + 3);
      assert line[at] == line[at..at + 3][0] && line[at + 1] == line[at..at + 3][1] && line[at + 2] == line[at..at + 3][2];
    }
  }

  /** A line of a fence before or after the token's. */
  predicate IsCode(line: Text) {
    LESS !in line && NEWLINE !in line && !IsFenceClose(line)
  }

  predicate AllCode(lines: seq<Text>) {
    forall k :: 0 <= k < |lines| ==> IsCode(lines[k])
  }

  lemma CodeLines(above: seq<Text>, line: Text, below: seq<Text>)
    requires AllCode(above) && AllCode(below) && NEWLINE !in line && !IsFenceClose(line)
    ensures var code := above + [line] + below;
            forall k :: 0 <= k < |code| ==> NEWLINE !in code[k] && !IsFenceClose(code[k])
  {
    hide IsFenceClose;
  }

  lemma EndingHolds(ending: seq<Text>)
    requires EndsFence(ending)
    ensures forall k :: 0 <= k < |ending| ==> LESS !in ending[k]
  {
    forall k | 0 <= k < |ending| ensures LESS !in ending[k] {
      if k > 0 {
        assert ending[k] == ending[1..][k - 1];
      }
    }
  }

  lemma Sides(before: seq<Text>, info: Text, above: seq<Text>, line: Text, below: seq<Text>, ending: seq<Text>)
    requires AllOther(before) && EndsFence(ending) && AllCode(above) && AllCode(below) && LESS !in info
    ensures var head, tail := before + [TICKS + info] + above, below + ending;
            && before + [TICKS + info] + (above + [line] + below) + ending == head + [line] + tail
            && (forall k :: 0 <= k < |head| ==> LESS !in head[k]) && (forall k :: 0 <= k < |tail| ==> LESS !in tail[k])
  {
    hide IsFenceClose, EndsFence;
    EndingHolds(ending);
  }

  /** A token on a line of a fence, closed or not, is stored as text and tells
      nobody. */
  lemma FenceStored(dir: Directory, before: seq<Text>, info: Text, above: seq<Text>, x: Text, t: Text, y: Text,
                    below: seq<Text>, ending: seq<Text>, stored: Text)
    requires AllOther(before) && EndsFence(ending) && IsInfo(info) && LESS !in info
    requires AllCode(above) && AllCode(below) && IsToken(t) && LESS !in x + y && NEWLINE !in x + y
    requires IsStored(dir, Joined(before + [TICKS + info] + (above + [x + t + y] + below) + ending), stored)
    ensures var line := x + PlainText(PartsOf(t)) + y;
            stored == Joined(before + [TICKS + info] + (above + [line] + below) + ending)
    ensures ScanMentions(stored, 0) == []
  {
    hide TokenLen, IsToken, PartsOf, PlainText, Shown, Live, Nodes, ScanMentions, IsStored, Joined, ShowsNone, IsInfo;
    hide AllOther, AllCode, IsFenceClose, EndsFence;
    TokenShape(t);
    var line, words := x + t + y, x + PlainText(PartsOf(t)) + y;
    assert line[|x|] == t[0];
    TokenLineStays(line, |x|);
    CodeLines(above, line, below);
    FenceHides(before, info, above + [line] + below, ending);
    Sides(before, info, above, line, below, ending);
    Sides(before, info, above, words, below, ending);
    HiddenLine(dir, before + [TICKS + info] + above, x, t, y, below + ending, stored);
  }
}
