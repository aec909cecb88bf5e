/** The lines of a message and the blocks they make: fences, lists, quotes
    and plain lines. */
module Blocks {
  import opened Bytes
  import opened Tokens
  import opened Rewriting
  import opened Markdown
  import opened Offsets

  datatype RowKind = LinesBlock | QuoteBlock | ListBlock

  /** Rows are a list's items, or a quote's or plain block's lines. */
  datatype Block = Rows(kind: RowKind, rows: seq<seq<Inline>>) | Fence(text: Text)

  /** What the parse makes of a line: where the text in it starts, or that a
      fence stands there. */
  datatype Form = OneLineFence(code: Text) | OpensFence | Row(kind: RowKind, from: nat)

  // ---- Lines --------------------------------------------------------------------

  /** strings.Split(s, "\n"). */
  function Lines(s: Text): (lines: seq<Text>)
    ensures |lines| > 0
    decreases |s|
  {
    var end := IndexFrom(s, NEWLINE, 0);
    if end == |s| then [s] else [s[..end]] + Lines(s[end + 1..])
  }

  function Joined(lines: seq<Text>): Text {
    if |lines| == 0 then [] else if |lines| == 1 then lines[0] else lines[0] + [NEWLINE] + Joined(lines[1..])
  }

  /** The offset of line i: every line before it and its line end. */
  function LineStart(lines: seq<Text>, i: nat): nat
    requires i <= |lines|
  {
    if i == 0 then 0 else LineStart(lines, i - 1) + |lines[i - 1]| + 1
  }

  // ---- The forms a line can have ----------------------------------------------------

  /** The first position at or after i that is not blank. */
  function SkipBlank(s: Text, i: nat): (j: nat)
    requires i <= |s|
    ensures i <= j <= |s|
    decreases |s| - i
  {
    if i < |s| && IsBlank(s[i]) then SkipBlank(s, i + 1) else i
  }

  predicate AllBlank(s: Text, from: nat)
    requires from <= |s|
  {
    SkipBlank(s, from) == |s|
  }

  /** s without its trailing blanks: the length. */
  function TrimmedLen(s: Text, n: nat): (m: nat)
    requires n <= |s|
    ensures m <= n
  {
    if n > 0 && IsBlank(s[n - 1]) then TrimmedLen(s, n - 1) else n
  }

  const TICKS: Text := [BACKTICK, BACKTICK, BACKTICK]

  /** Whether the line is ^\s*```([^\s`]*)\s*$. */
  predicate IsFenceOpen(line: Text) {
    var at := SkipBlank(line, 0);
    HasAt(line, at, TICKS)
    && forall k :: at + 3 <= k < TrimmedLen(line, |line|) ==> !IsBlank(line[k]) && line[k] != BACKTICK
  }

  /** Whether the line is ^\s*```\s*$. */
  predicate IsFenceClose(line: Text) {
    var at := SkipBlank(line, 0);
    HasAt(line, at, TICKS) && AllBlank(line, at + 3)
  }

  /** What ^\s*```(.+?)```\s*$ captures, as bounds; equal when it does not match. */
  function OneLineCode(line: Text): (bounds: (nat, nat))
    ensures bounds.0 <= bounds.1 <= |line|
  {
    var at := SkipBlank(line, 0);
    var end := TrimmedLen(line, |line|);
    if HasAt(line, at, TICKS) && at + 3 + 1 + 3 <= end && HasAt(line, end - 3, TICKS) then (at + 3, end - 3) else (0, 0)
  }

  function DigitsEnd(s: Text, i: nat): (j: nat)
    requires i <= |s|
    ensures i <= j <= |s|
    decreases |s| - i
  {
    if i < |s| && IsDigit(s[i]) then DigitsEnd(s, i + 1) else i
  }

  function SpacesEnd(s: Text, i: nat): (j: nat)
    requires i <= |s|
    ensures i <= j <= |s|
    decreases |s| - i
  {
    if i < |s| && s[i] == SPACE then SpacesEnd(s, i + 1) else i
  }

  /** The end of a list marker that starts at i, or i. */
  function MarkerEnd(s: Text, i: nat): (j: nat)
    requires i <= |s|
    ensures i <= j <= |s|
  {
    var digits := DigitsEnd(s, i);
    if i < |s| && (s[i] == DASH || s[i] == STAR) then i + 1
    else if i < digits <= i + 9 && digits < |s| && (s[digits] == DOT || s[digits] == CLOSE_PAREN) then digits + 1
    else i
  }

  /** Where a list item's text starts (the last group of the list pattern),
      or 0 when the line is no list item. */
  function ItemAt(line: Text): (at: nat)
    ensures at <= |line|
  {
    var spaces := SpacesEnd(line, 0);
    var marker := MarkerEnd(line, spaces);
    if spaces <= 6 && spaces < marker && SkipBlank(line, marker) > marker then SkipBlank(line, marker) else 0
  }

  function FormOf(line: Text): (form: Form)
    ensures form.Row? ==> form.from <= |line|
  {
    var (from, to) := OneLineCode(line);
    if from < to then OneLineFence(line[from..to])
    else if IsFenceOpen(line) then OpensFence
    else if ItemAt(line) > 0 then Row(ListBlock, ItemAt(line))
    else if |line| > 0 && line[0] == GREATER then
      Row(QuoteBlock, if 1 < |line| && IsBlank(line[1]) then 2 else 1)
    else Row(LinesBlock, 0)
  }

  // ---- Blocks -------------------------------------------------------------------------

  /** The line that closes a fence opened before line i, or |lines|. */
  function FenceEnd(lines: seq<Text>, i: nat): (j: nat)
    requires i <= |lines|
    ensures i <= j <= |lines|
    ensures j < |lines| ==> IsFenceClose(lines[j])
    ensures forall k :: i <= k < j ==> !IsFenceClose(lines[k])
    decreases |lines| - i
  {
    if i < |lines| && !IsFenceClose(lines[i]) then FenceEnd(lines, i + 1) else i
  }

  /** A row joins the last block when it is of its kind, or starts one. */
  function AddRow(blocks: seq<Block>, kind: RowKind, row: seq<Inline>): seq<Block> {
    if |blocks| > 0 && blocks[|blocks| - 1].Rows? && blocks[|blocks| - 1].kind == kind
    then blocks[..|blocks| - 1] + [Rows(kind, blocks[|blocks| - 1].rows + [row])]
    else blocks + [Rows(kind, [row])]
  }

  /** parseMarkdown from line i on, after the blocks made so far. */
  function BlocksFrom(lines: seq<Text>, i: nat, blocks: seq<Block>): seq<Block>
    requires i <= |lines|
    decreases |lines| - i
  {
    if i == |lines| then blocks
    else
      match FormOf(lines[i])
      case OneLineFence(code) => BlocksFrom(lines, i + 1, blocks + [Fence(TokensAsText(code))])
      case OpensFence =>
        var j := FenceEnd(lines, i + 1);
        BlocksFrom(lines, if j == |lines| then j else j + 1, blocks + [Fence(TokensAsText(Joined(lines[i + 1..j])))])
      case Row(kind, from) =>
        BlocksFrom(lines, i + 1, AddRow(blocks, kind, Inlines(lines[i][from..], LineStart(lines, i) + from)))
  }

  function Parse(content: Text): seq<Block> {
    BlocksFrom(Lines(content), 0, [])
  }

  // ---- Walking the blocks ----------------------------------------------------------------

  function WalkRows(rows: seq<seq<Inline>>): seq<Inline> {
    if |rows| == 0 then [] else rows[0] + WalkRows(rows[1..])
  }

  /** The top nodes walkInline goes over, block by block. */
  function Walk(blocks: seq<Block>): seq<Inline> {
    if |blocks| == 0 then []
    else (match blocks[0] case Rows(_, rows) => WalkRows(rows) case Fence(_) => []) + Walk(blocks[1..])
  }

  lemma {:induction false} WalkRowsConcat(a: seq<seq<Inline>>, b: seq<seq<Inline>>)
    ensures WalkRows(a + b) == WalkRows(a) + WalkRows(b)
  {
    if |a| == 0 {
      assert a + b == b;
    } else {
      assert (a + b)[1..] == a[1..] + b;
      WalkRowsConcat(a[1..], b);
    }
  }

  lemma {:induction false} WalkConcat(a: seq<Block>, b: seq<Block>)
    ensures Walk(a + b) == Walk(a) + Walk(b)
  {
    if |a| == 0 {
      assert a + b == b;
    } else {
      assert (a + b)[1..] == a[1..] + b;
      WalkConcat(a[1..], b);
    }
  }

  lemma WalkFence(blocks: seq<Block>, text: Text)
    ensures Walk(blocks + [Fence(text)]) == Walk(blocks)
  {
    WalkConcat(blocks, [Fence(text)]);
    assert Walk([Fence(text)]) == [];
  }

  lemma WalkAdded(blocks: seq<Block>, kind: RowKind, row: seq<Inline>)
    ensures Walk(AddRow(blocks, kind, row)) == Walk(blocks) + row
  {
    assert WalkRows([row]) == row + WalkRows([]);
    assert Walk([Rows(kind, [row])]) == row + Walk([]);
    if |blocks| > 0 && blocks[|blocks| - 1].Rows? && blocks[|blocks| - 1].kind == kind {
      var init, last := blocks[..|blocks| - 1], blocks[|blocks| - 1];
      assert blocks == init + [last];
      WalkConcat(init, [last]);
      WalkConcat(init, [Rows(kind, last.rows + [row])]);
      WalkRowsConcat(last.rows, [row]);
      assert Walk([last]) == WalkRows(last.rows) + Walk([]);
      assert Walk([Rows(kind, last.rows + [row])]) == WalkRows(last.rows + [row]) + Walk([]);
    } else {
      WalkConcat(blocks, [Rows(kind, [row])]);
    }
  }

  // ---- The parse of a message is sound -----------------------------------------------------

  /** Line i of content stands at its offset. */
  ghost predicate LineAt(content: Text, lines: seq<Text>, i: nat)
    requires i < |lines|
  {
    var start := LineStart(lines, i);
    start + |lines[i]| <= |content| && content[start..start + |lines[i]|] == lines[i]
  }

  lemma {:induction false} LineStartTail(lines: seq<Text>, i: nat)
    requires 1 <= i <= |lines|
    ensures LineStart(lines, i) == |lines[0]| + 1 + LineStart(lines[1..], i - 1)
  {
    if i > 1 {
      LineStartTail(lines, i - 1);
    }
  }

  lemma LineShifted(content: Text, end: nat, lines: seq<Text>, i: nat)
    requires end < |content| && 0 < i < |lines| && |lines[0]| == end
    requires LineAt(content[end + 1..], lines[1..], i - 1)
    ensures LineAt(content, lines, i)
  {
    LineStartTail(lines, i);
    hide LineStart;
    var start, n := LineStart(lines[1..], i - 1), |lines[i]|;
    var rest := content[end + 1..];
    assert rest[start..start + n] == content[end + 1 + start..end + 1 + start + n];
  }

  lemma {:induction false} LinesAt(content: Text)
    ensures forall i :: 0 <= i < |Lines(content)| ==> LineAt(content, Lines(content), i)
    ensures LineStart(Lines(content), |Lines(content)|) == |content| + 1
    decreases |content|
  {
    hide LineAt, LineStart;
    var lines := Lines(content);
    var end := IndexFrom(content, NEWLINE, 0);
    FirstLine(content, lines);
    if end < |content| {
      var rest := content[end + 1..];
      LinesAt(rest);
      assert lines[1..] == Lines(rest);
      LineStartTail(lines, |lines|);
      forall i | 0 <= i < |lines| ensures LineAt(content, lines, i) {
        if i > 0 {
          LineShifted(content, end, lines, i);
        }
      }
    }
  }

  lemma FirstLine(content: Text, lines: seq<Text>)
    requires |lines| > 0 && lines[0] <= content
    ensures LineAt(content, lines, 0) && LineStart(lines, 1) == |lines[0]| + 1
  {
    assert LineStart(lines, 1) == LineStart(lines, 0) + |lines[0]| + 1;
  }

  lemma {:induction false} LineStartsGrow(lines: seq<Text>, i: nat, j: nat)
    requires i <= j <= |lines|
    ensures LineStart(lines, i) <= LineStart(lines, j)
    ensures i < j ==> LineStart(lines, i) + |lines[i]| + 1 <= LineStart(lines, j)
    decreases j - i
  {
    if i < j {
      LineStartsGrow(lines, i, j - 1);
    }
  }

  /** One row, parsed from its place in the message. */
  lemma RowSound(content: Text, lines: seq<Text>, i: nat, from: nat, hi: nat)
    requires i < |lines| && from <= |lines[i]| && LineAt(content, lines, i)
    requires LineStart(lines, i) + |lines[i]| <= hi <= |content|
    ensures Sound(Inlines(lines[i][from..], LineStart(lines, i) + from), content, 0, LineStart(lines, i), hi)
  {
    hide Sound, TokenLen, Inlines, LineStart, Shown, Live;
    var start := LineStart(lines, i);
    var nodes := Inlines(lines[i][from..], start + from);
    ParseSound(lines[i][from..], start + from);
    assert content[start + from..start + |lines[i]|] == lines[i][from..];
    assert 0 + (start + from) == start + from;
    SoundOutward(nodes, nodes, content, 0, start, start + from, start + |lines[i]|, hi);
  }

  lemma {:induction false} BlocksSound(content: Text, lines: seq<Text>, i: nat, blocks: seq<Block>)
    requires i <= |lines| && LineStart(lines, |lines|) == |content| + 1
    requires forall k :: 0 <= k < |lines| ==> LineAt(content, lines, k)
    requires Sound(Walk(blocks), content, 0, 0, if i == |lines| then |content| else LineStart(lines, i))
    ensures Sound(Walk(BlocksFrom(lines, i, blocks)), content, 0, 0, |content|)
    decreases |lines| - i
  {
    hide Sound, TokenLen, Inlines, FormOf, Walk, AddRow, Shown, Live, LineAt, Joined, Rewrite;
    if i < |lines| {
      var start := LineStart(lines, i);
      match FormOf(lines[i])
      case OneLineFence(code) =>
        WalkFence(blocks, TokensAsText(code));
        Widen(content, lines, Walk(blocks), i, i + 1);
        BlocksSound(content, lines, i + 1, blocks + [Fence(TokensAsText(code))]);
      case OpensFence =>
        var j := FenceEnd(lines, i + 1);
        var next := if j == |lines| then j else j + 1;
        var text := TokensAsText(Joined(lines[i + 1..j]));
        WalkFence(blocks, text);
        Widen(content, lines, Walk(blocks), i, next);
        BlocksSound(content, lines, next, blocks + [Fence(text)]);
      case Row(kind, from) =>
        var row := Inlines(lines[i][from..], start + from);
        var hi := if i + 1 == |lines| then |content| else LineStart(lines, i + 1);
        LineStartsGrow(lines, i + 1, |lines|);
        assert LineAt(content, lines, i);
        RowSound(content, lines, i, from, hi);
        WalkAdded(blocks, kind, row);
        SoundConcat(Walk(blocks), row, content, 0, 0, start, hi);
        BlocksSound(content, lines, i + 1, AddRow(blocks, kind, row));
    }
  }

  /** Lines the parse shows as code add nothing. */
  lemma Widen(content: Text, lines: seq<Text>, nodes: seq<Inline>, i: nat, next: nat)
    requires i < next <= |lines| && LineStart(lines, |lines|) == |content| + 1
    requires Sound(nodes, content, 0, 0, LineStart(lines, i))
    ensures Sound(nodes, content, 0, 0, if next == |lines| then |content| else LineStart(lines, next))
  {
    hide Sound, TokenLen, LineStart;
    var hi := if next == |lines| then |content| else LineStart(lines, next);
    LineStartsGrow(lines, i, next);
    LineStartsGrow(lines, next, |lines|);
    if next < |lines| {
      LineStartsGrow(lines, next, |lines|);
    }
    SoundNothing(content, 0, LineStart(lines, i), hi, []);
    SoundConcat(nodes, [], content, 0, 0, LineStart(lines, i), hi);
    assert nodes + [] == nodes;
  }

  /** Every message's parse is sound: what it says about its mentions'
      offsets holds of the message itself. */
  lemma MessageSound(content: Text)
    ensures Sound(Walk(Parse(content)), content, 0, 0, |content|)
  {
    hide Sound, TokenLen, Lines;
    LinesAt(content);
    assert Walk([]) == [];
    SoundNothing(content, 0, 0, 0, []);
    BlocksSound(content, Lines(content), 0, []);
  }
}
