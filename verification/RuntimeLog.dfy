/** The runtime log of a replayed agent: splitting it into one block per model call, and the round trip. */
module RuntimeLog {
  import opened Wrappers

  /** The prefixes of the line that starts a block and of the two lines that end it. */
  datatype Markers = Markers(output: string, low: string, code: string)

  const QWEN := Markers("Qwen25VL Output: ", "Low level instruction: ", "Pyautogui code: ")

  /** The code list, if it could be evaluated. */
  type Code = Option<seq<string>>

  datatype Block = Block(response: string, low: Option<string>, code: Code)

  // ---------- lines ----------

  function Join(lines: seq<string>): string {
    if lines == [] then ""
    else if |lines| == 1 then lines[0]
    else Join(lines[..|lines| - 1]) + "\n" + lines[|lines| - 1]
  }

  /** The lines with `more` written after the last of them. */
  function Lengthen(lines: seq<string>, more: string): (r: seq<string>)
    requires lines != []
    ensures |r| == |lines|
  {
    lines[..|lines| - 1] + [lines[|lines| - 1] + more]
  }

  /** `text.split("\n")`, reading the first `n` characters. */
  function SplitUpTo(text: string, n: nat): (r: seq<string>)
    requires n <= |text|
    ensures r != []
  {
    if n == 0 then [""]
    else
      var front, c := SplitUpTo(text, n - 1), text[n - 1];
      if c == '\n' then front + [""] else Lengthen(front, [c])
  }

  function Split(text: string): (r: seq<string>)
    ensures r != []
  {
    SplitUpTo(text, |text|)
  }

  ghost predicate IsLine(s: string) {
    '\n' !in s
  }

  // ---------- the parser ----------

  /** Lines `k` and `k + 1` close a block. */
  predicate Ends(m: Markers, lines: seq<string>, k: nat) {
    k + 1 < |lines| && m.low <= lines[k] && m.code <= lines[k + 1]
  }

  /** The first position from `k` on where a block closes, or the number of lines. */
  function EndFrom(m: Markers, lines: seq<string>, k: nat): (e: nat)
    requires k <= |lines|
    ensures k <= e <= |lines|
    ensures forall j :: k <= j < e ==> !Ends(m, lines, j)
    ensures e < |lines| ==> Ends(m, lines, e)
    decreases |lines| - k
  {
    if k == |lines| || Ends(m, lines, k) then k else EndFrom(m, lines, k + 1)
  }

  /** `first` and the lines from `i` to `e`, joined. */
  function JoinFrom(first: string, lines: seq<string>, i: nat, e: nat): string
    requires i <= e <= |lines|
  {
    if e == i then first else JoinFrom(first, lines, i, e - 1) + "\n" + lines[e - 1]
  }

  lemma JoinPush(resp: seq<string>, line: string)
    requires resp != []
    ensures Join(resp + [line]) == Join(resp) + "\n" + line
  {
    assert (resp + [line])[..|resp|] == resp;
  }

  function BlockAt(m: Markers, lines: seq<string>, i: nat, eval: string -> Code): Block
    requires i < |lines| && m.output <= lines[i]
  {
    var e := EndFrom(m, lines, i + 1);
    var response := JoinFrom(lines[i][|m.output|..], lines, i + 1, e);
    if e < |lines| then Block(response, Some(lines[e][|m.low|..]), eval(lines[e + 1][|m.code|..]))
    else Block(response, None, None)
  }

  function NextAt(m: Markers, lines: seq<string>, i: nat): (n: nat)
    requires i < |lines|
    ensures i < n <= |lines|
  {
    var e := EndFrom(m, lines, i + 1);
    if e < |lines| then e + 2 else |lines|
  }

  /** The blocks from line `i` on. */
  function Parse(m: Markers, lines: seq<string>, i: nat, eval: string -> Code): seq<Block>
    requires i <= |lines|
    decreases |lines| - i
  {
    if i == |lines| then []
    else if m.output <= lines[i] then [BlockAt(m, lines, i, eval)] + Parse(m, lines, NextAt(m, lines, i), eval)
    else Parse(m, lines, i + 1, eval)
  }

  /** The inner loop: from the line that starts a block to the pair that closes it, or to the end. */
  method ReadBlock(m: Markers, lines: seq<string>, start: nat, eval: string -> Code) returns (block: Block, i: nat)
    requires start < |lines| && m.output <= lines[start]
    ensures block == BlockAt(m, lines, start, eval) && i == NextAt(m, lines, start)
  {
    var first := lines[start][|m.output|..];
    var resp := [first];
    i := start + 1;
    while i < |lines| && !Ends(m, lines, i)
      invariant start + 1 <= i <= |lines| && resp != []
      invariant Join(resp) == JoinFrom(first, lines, start + 1, i)
      invariant EndFrom(m, lines, start + 1) == EndFrom(m, lines, i)
    {
      JoinPush(resp, lines[i]);
      resp := resp + [lines[i]];
      i := i + 1;
    }
    if i < |lines| {
      block := Block(Join(resp), Some(lines[i][|m.low|..]), eval(lines[i + 1][|m.code|..]));
      i := i + 2;
    } else {
      block := Block(Join(resp), None, None);
    }
  }

  /** The outer loop of the parser. */
  method ParseLines(m: Markers, lines: seq<string>, eval: string -> Code) returns (blocks: seq<Block>)
    ensures blocks == Parse(m, lines, 0, eval)
  {
    blocks := [];
    var i := 0;
    while i < |lines|
      invariant 0 <= i <= |lines|
      invariant blocks + Parse(m, lines, i, eval) == Parse(m, lines, 0, eval)
    {
      if m.output <= lines[i] {
        var block, next := ReadBlock(m, lines, i, eval);
        assert blocks + ([block] + Parse(m, lines, next, eval)) == (blocks + [block]) + Parse(m, lines, next, eval);
        blocks := blocks + [block];
        i := next;
      } else {
        i := i + 1;
      }
    }
  }

  method ParseRuntimeLog(text: string, eval: string -> Code) returns (blocks: seq<Block>)
    ensures blocks == Parse(QWEN, Split(text), 0, eval)
  {
    blocks := ParseLines(QWEN, Split(text), eval);
  }

  // ---------- rendering ----------

  /** A log is a mix of other lines and blocks. */
  datatype Item = Noise(line: string) | Logged(response: seq<string>, low: string, raw: string)

  function RenderItem(m: Markers, item: Item): seq<string> {
    match item
    case Noise(line) => [line]
    case Logged(response, low, raw) =>
      if response == [] then [m.output, m.low + low, m.code + raw]
      else [m.output + response[0]] + response[1..] + [m.low + low, m.code + raw]
  }

  function Render(m: Markers, items: seq<Item>): seq<string> {
    if items == [] then [] else RenderItem(m, items[0]) + Render(m, items[1..])
  }

  function Expected(items: seq<Item>, eval: string -> Code): seq<Block> {
    if items == [] then []
    else match items[0]
      case Noise(_) => Expected(items[1..], eval)
      case Logged(response, low, raw) =>
        [Block(Join(response), Some(low), eval(raw))] + Expected(items[1..], eval)
  }

  /** Noise does not start a block, and a response has at least its first line. */
  predicate Plausible(m: Markers, item: Item) {
    match item
    case Noise(line) => !(m.output <= line)
    case Logged(response, _, _) => response != []
  }

  /** The response contains a pair of lines that reads like the end of a block. */
  predicate Broken(m: Markers, item: Item) {
    item.Logged? && exists k :: 1 <= k < |item.response| - 1 && m.low <= item.response[k] && m.code <= item.response[k + 1]
  }

  /** From position `d` on, `c` reads like `b`. */
  ghost predicate Shifted(c: seq<string>, d: nat, b: seq<string>) {
    |c| == d + |b| && forall j :: 0 <= j < |b| ==> c[d + j] == b[j]
  }

  lemma EndsShift(m: Markers, c: seq<string>, d: nat, b: seq<string>, k: nat)
    requires Shifted(c, d, b) && k < |b|
    ensures Ends(m, c, d + k) == Ends(m, b, k)
  {
    assert c[d + k] == b[k];
    if k + 1 < |b| { assert c[d + (k + 1)] == b[k + 1]; }
  }

  lemma {:induction false} EndShift(m: Markers, c: seq<string>, d: nat, b: seq<string>, k: nat)
    requires Shifted(c, d, b) && k <= |b|
    ensures EndFrom(m, c, d + k) == d + EndFrom(m, b, k)
    decreases |b| - k
  {
    if k < |b| {
      EndsShift(m, c, d, b, k);
      if !Ends(m, b, k) { EndShift(m, c, d, b, k + 1); }
    }
  }

  lemma {:induction false} JoinShift(first: string, c: seq<string>, d: nat, b: seq<string>, i: nat, e: nat)
    requires Shifted(c, d, b) && i <= e <= |b|
    ensures JoinFrom(first, c, d + i, d + e) == JoinFrom(first, b, i, e)
    decreases e
  {
    if i < e {
      JoinShift(first, c, d, b, i, e - 1);
      assert c[d + (e - 1)] == b[e - 1];
    }
  }

  lemma BlockShift(m: Markers, c: seq<string>, d: nat, b: seq<string>, k: nat, eval: string -> Code)
    requires Shifted(c, d, b) && k < |b| && m.output <= b[k] && m.output <= c[d + k]
    ensures BlockAt(m, c, d + k, eval) == BlockAt(m, b, k, eval)
    ensures NextAt(m, c, d + k) == d + NextAt(m, b, k)
  {
    var e := EndFrom(m, b, k + 1);
    EndShift(m, c, d, b, k + 1);
    assert c[d + k] == b[k];
    JoinShift(b[k][|m.output|..], c, d, b, k + 1, e);
    if e < |b| { assert c[d + e] == b[e] && c[d + (e + 1)] == b[e + 1]; }
  }

  ghost predicate SameParse(m: Markers, c: seq<string>, d: nat, b: seq<string>, k: nat, eval: string -> Code)
    requires |c| == d + |b| && k <= |b|
  {
    Parse(m, c, d + k, eval) == Parse(m, b, k, eval)
  }

  lemma SameParseBlock(m: Markers, c: seq<string>, d: nat, b: seq<string>, k: nat, eval: string -> Code)
    requires Shifted(c, d, b) && k < |b| && m.output <= b[k] && SameParse(m, c, d, b, NextAt(m, b, k), eval)
    ensures SameParse(m, c, d, b, k, eval)
  {
    assert c[d + k] == b[k];
    BlockShift(m, c, d, b, k, eval);
  }

  lemma SameParseLine(m: Markers, c: seq<string>, d: nat, b: seq<string>, k: nat, eval: string -> Code)
    requires Shifted(c, d, b) && k < |b| && !(m.output <= b[k]) && SameParse(m, c, d, b, k + 1, eval)
    ensures SameParse(m, c, d, b, k, eval)
  {
    assert c[d + k] == b[k];
  }

  /** Parsing does not look back. */
  lemma {:induction false} ParseFrom(m: Markers, c: seq<string>, d: nat, b: seq<string>, k: nat, eval: string -> Code)
    requires Shifted(c, d, b) && k <= |b|
    ensures SameParse(m, c, d, b, k, eval)
    decreases |b| - k
  {
    if k < |b| {
      if m.output <= b[k] {
        ParseFrom(m, c, d, b, NextAt(m, b, k), eval);
        SameParseBlock(m, c, d, b, k, eval);
      } else {
        ParseFrom(m, c, d, b, k + 1, eval);
        SameParseLine(m, c, d, b, k, eval);
      }
    }
  }

  lemma ParseShift(m: Markers, a: seq<string>, b: seq<string>, eval: string -> Code)
    ensures Parse(m, a + b, |a|, eval) == Parse(m, b, 0, eval)
  {
    ParseFrom(m, a + b, |a|, b, 0, eval);
  }

  // ---------- the round trip ----------

  lemma EndUnique(m: Markers, lines: seq<string>, k: nat, e: nat)
    requires k <= e < |lines| && Ends(m, lines, e) && forall j :: k <= j < e ==> !Ends(m, lines, j)
    ensures EndFrom(m, lines, k) == e
  {
  }

  /** The two end markers begin with different characters. */
  predicate TellApart(m: Markers) {
    m.low != "" && m.code != "" && m.low[0] != m.code[0]
  }

  lemma MarkersDiffer(m: Markers, low: string)
    requires TellApart(m)
    ensures !(m.code <= m.low + low)
  {
    assert (m.low + low)[0] == m.low[0];
  }

  /** The lines of a rendered block, one by one. */
  lemma RenderedAt(m: Markers, item: Item, rest: seq<string>, j: nat)
    requires item.Logged? && item.response != [] && j <= |item.response| + 1
    ensures var lines, r := RenderItem(m, item) + rest, item.response;
      && |RenderItem(m, item)| == |r| + 2
      && lines[j] == if j == 0 then m.output + r[0] else if j < |r| then r[j]
                     else if j == |r| then m.low + item.low else m.code + item.raw
  {
  }

  lemma EndsInside(m: Markers, item: Item, rest: seq<string>, j: nat)
    requires TellApart(m)
    requires item.Logged? && item.response != [] && 1 <= j <= |item.response|
    ensures var r := item.response;
      Ends(m, RenderItem(m, item) + rest, j) <==> j == |r| || (j + 1 < |r| && m.low <= r[j] && m.code <= r[j + 1])
  {
    RenderedAt(m, item, rest, j);
    RenderedAt(m, item, rest, j + 1);
    MarkersDiffer(m, item.low);
    assert m.low <= m.low + item.low && m.code <= m.code + item.raw;
  }

  lemma {:induction false} BlockResponse(m: Markers, item: Item, rest: seq<string>, e: nat)
    requires item.Logged? && item.response != [] && 1 <= e <= |item.response|
    requires |RenderItem(m, item)| == |item.response| + 2
    ensures JoinFrom(item.response[0], RenderItem(m, item) + rest, 1, e) == Join(item.response[..e])
  {
    var r := item.response;
    if e == 1 {
      assert r[..1] == [r[0]];
    } else {
      BlockResponse(m, item, rest, e - 1);
      RenderedAt(m, item, rest, e - 1);
      assert r[..e] == r[..e - 1] + [r[e - 1]];
      JoinPush(r[..e - 1], r[e - 1]);
    }
  }

  lemma FirstBlock(m: Markers, item: Item, rest: seq<string>, eval: string -> Code, e: nat)
    requires item.Logged? && item.response != [] && 1 <= e <= |item.response|
    requires EndFrom(m, RenderItem(m, item) + rest, 1) == e
    ensures var lines := RenderItem(m, item) + rest;
      m.output <= lines[0] && BlockAt(m, lines, 0, eval).response == Join(item.response[..e])
  {
    RenderedAt(m, item, rest, 0);
    assert (m.output + item.response[0])[|m.output|..] == item.response[0];
    BlockResponse(m, item, rest, e);
  }

  /** A block whose response is intact is read back as it was. */
  lemma IntactBlock(m: Markers, item: Item, rest: seq<string>, eval: string -> Code)
    requires TellApart(m)
    requires item.Logged? && Plausible(m, item) && !Broken(m, item)
    ensures Parse(m, RenderItem(m, item) + rest, 0, eval) ==
              [Block(Join(item.response), Some(item.low), eval(item.raw))] + Parse(m, rest, 0, eval)
  {
    var lines, n := RenderItem(m, item) + rest, |item.response|;
    forall j: nat | 1 <= j <= n ensures Ends(m, lines, j) <==> j == n { EndsInside(m, item, rest, j); }
    EndUnique(m, lines, 1, n);
    FirstBlock(m, item, rest, eval, n);
    assert item.response[..n] == item.response;
    RenderedAt(m, item, rest, n);
    RenderedAt(m, item, rest, n + 1);
    assert (m.low + item.low)[|m.low|..] == item.low && (m.code + item.raw)[|m.code|..] == item.raw;
    ParseShift(m, RenderItem(m, item), rest, eval);
  }

  lemma {:induction false} JoinShorter(lines: seq<string>, k: nat)
    requires 1 <= k < |lines|
    ensures |Join(lines[..k])| < |Join(lines)|
  {
    var front := lines[..|lines| - 1];
    assert |Join(lines)| > |Join(front)|;
    if k < |front| {
      JoinShorter(front, k);
      assert front[..k] == lines[..k];
    } else {
      assert lines[..k] == front;
    }
  }

  /** A response that contains an end pair is cut short. */
  lemma BrokenBlock(m: Markers, item: Item, rest: seq<string>, eval: string -> Code)
    requires TellApart(m)
    requires item.Logged? && Plausible(m, item) && Broken(m, item)
    ensures var p := Parse(m, RenderItem(m, item) + rest, 0, eval);
      p != [] && p[0].response != Join(item.response)
  {
    var lines, r := RenderItem(m, item) + rest, item.response;
    var k :| 1 <= k < |r| - 1 && m.low <= r[k] && m.code <= r[k + 1];
    EndsInside(m, item, rest, k);
    var e := EndFrom(m, lines, 1);
    assert e <= k;
    FirstBlock(m, item, rest, eval, e);
    JoinShorter(r, e);
  }

  lemma NoiseLine(m: Markers, item: Item, rest: seq<string>, eval: string -> Code)
    requires item.Noise? && Plausible(m, item)
    ensures Parse(m, RenderItem(m, item) + rest, 0, eval) == Parse(m, rest, 0, eval)
  {
    assert (RenderItem(m, item) + rest)[0] == item.line;
    ParseShift(m, RenderItem(m, item), rest, eval);
  }

  /** What the first item does to the comparison. */
  lemma FirstItem(m: Markers, item: Item, rest: seq<string>, more: seq<Block>, eval: string -> Code)
    requires TellApart(m)
    requires Plausible(m, item)
    ensures var all := if item.Noise? then more else [Block(Join(item.response), Some(item.low), eval(item.raw))] + more;
      Parse(m, RenderItem(m, item) + rest, 0, eval) == all <==> !Broken(m, item) && Parse(m, rest, 0, eval) == more
  {
    if item.Noise? {
      NoiseLine(m, item, rest, eval);
    } else if Broken(m, item) {
      BrokenBlock(m, item, rest, eval);
    } else {
      var b := Block(Join(item.response), Some(item.low), eval(item.raw));
      IntactBlock(m, item, rest, eval);
      assert ([b] + Parse(m, rest, 0, eval))[1..] == Parse(m, rest, 0, eval) && ([b] + more)[1..] == more;
    }
  }

  ghost predicate NoneBroken(m: Markers, items: seq<Item>) {
    forall i :: 0 <= i < |items| ==> !Broken(m, items[i])
  }

  lemma NoneBrokenSplits(m: Markers, items: seq<Item>)
    requires items != []
    ensures NoneBroken(m, items) <==> !Broken(m, items[0]) && NoneBroken(m, items[1..])
  {
    assert items == [items[0]] + items[1..];
  }

  /** Parsing the rendering gives the blocks back. */
  ghost predicate ReadsBack(m: Markers, items: seq<Item>, eval: string -> Code) {
    Parse(m, Render(m, items), 0, eval) == Expected(items, eval)
  }

  lemma ReadsBackSplits(m: Markers, items: seq<Item>, eval: string -> Code)
    requires TellApart(m) && items != [] && Plausible(m, items[0])
    ensures ReadsBack(m, items, eval) <==> !Broken(m, items[0]) && ReadsBack(m, items[1..], eval)
  {
    FirstItem(m, items[0], Render(m, items[1..]), Expected(items[1..], eval), eval);
  }

  /**
   Parsing the rendering of a log gives its blocks back if and only if no response contains a pair of lines
   that reads like the end of a block.
   */
  lemma {:induction false} LinesRoundTrip(m: Markers, items: seq<Item>, eval: string -> Code)
    requires TellApart(m)
    requires forall i :: 0 <= i < |items| ==> Plausible(m, items[i])
    ensures ReadsBack(m, items, eval) <==> NoneBroken(m, items)
  {
    if items != [] {
      LinesRoundTrip(m, items[1..], eval);
      ReadsBackSplits(m, items, eval);
      NoneBrokenSplits(m, items);
    }
  }

  // ---------- text ----------

  lemma {:induction false} SplitPrefix(a: string, b: string, n: nat)
    requires n <= |a|
    ensures SplitUpTo(a + b, n) == SplitUpTo(a, n)
  {
    if n > 0 { SplitPrefix(a, b, n - 1); }
  }

  lemma LengthenTwice(s: seq<string>, x: string, y: string)
    requires s != []
    ensures Lengthen(Lengthen(s, x), y) == Lengthen(s, x + y) && Lengthen(s, "") == s
  {
    var last := s[|s| - 1];
    assert (last + x) + y == last + (x + y) && last + "" == last;
    assert Lengthen(s, x)[..|s| - 1] == s[..|s| - 1];
    assert s == s[..|s| - 1] + [last];
  }

  lemma OneMore(b: string, n: nat)
    requires n < |b|
    ensures b[..n + 1] == b[..n] + [b[n]]
  {
  }

  /** A piece without line breaks only lengthens the last line. */
  lemma {:induction false} SplitMore(a: string, b: string, n: nat)
    requires n <= |b| && '\n' !in b
    ensures SplitUpTo(a + b, |a| + n) == Lengthen(Split(a), b[..n])
  {
    if n == 0 {
      SplitPrefix(a, b, |a|);
      LengthenTwice(Split(a), "", "");
      assert b[..0] == "";
    } else {
      SplitMore(a, b, n - 1);
      assert (a + b)[|a| + n - 1] == b[n - 1] && b[n - 1] in b;
      OneMore(b, n - 1);
      LengthenTwice(Split(a), b[..n - 1], [b[n - 1]]);
    }
  }

  lemma SplitLine(line: string)
    requires IsLine(line)
    ensures Split(line) == [line]
  {
    SplitMore("", line, |line|);
    assert "" + line == line && Split("") == [""];
    assert line[..|line|] == line;
  }

  lemma SplitBreak(a: string)
    ensures Split(a + "\n") == Split(a) + [""]
  {
    SplitPrefix(a, "\n", |a|);
  }

  lemma SplitConcat(a: string, line: string)
    requires IsLine(line)
    ensures Split(a + "\n" + line) == Split(a) + [line]
  {
    SplitBreak(a);
    SplitMore(a + "\n", line, |line|);
    var s := Split(a) + [""];
    assert s[..|s| - 1] == Split(a) && line[..|line|] == line && "" + line == line;
  }

  lemma {:induction false} SplitJoin(lines: seq<string>)
    requires lines != [] && forall i :: 0 <= i < |lines| ==> IsLine(lines[i])
    ensures Split(Join(lines)) == lines
  {
    var n := |lines| - 1;
    if n == 0 {
      SplitLine(lines[0]);
      assert lines == [lines[0]];
    } else {
      SplitJoin(lines[..n]);
      SplitConcat(Join(lines[..n]), lines[n]);
      assert lines == lines[..n] + [lines[n]];
    }
  }

  /** The round trip on the log text itself, with the log's own markers. */
  lemma LogRoundTrip(items: seq<Item>, eval: string -> Code)
    requires forall i :: 0 <= i < |items| ==> Plausible(QWEN, items[i])
    requires forall k :: 0 <= k < |Render(QWEN, items)| ==> IsLine(Render(QWEN, items)[k])
    ensures Parse(QWEN, Split(Join(Render(QWEN, items))), 0, eval) == Expected(items, eval) <==>
              NoneBroken(QWEN, items)
  {
    assert QWEN.low[0] == 'L' && QWEN.code[0] == 'P';
    TextRoundTrip(QWEN, items, eval);
  }

  lemma TextRoundTrip(m: Markers, items: seq<Item>, eval: string -> Code)
    requires TellApart(m)
    requires forall i :: 0 <= i < |items| ==> Plausible(m, items[i])
    requires forall k :: 0 <= k < |Render(m, items)| ==> IsLine(Render(m, items)[k])
    requires m.output != ""
    ensures Parse(m, Split(Join(Render(m, items))), 0, eval) == Expected(items, eval) <==> NoneBroken(m, items)
  {
    if items == [] {
      EmptyText(m, eval);
    } else {
      SplitJoin(Render(m, items));
      LinesRoundTrip(m, items, eval);
    }
  }

  lemma EmptyText(m: Markers, eval: string -> Code)
    requires m.output != ""
    ensures Parse(m, Split(""), 0, eval) == []
  {
    assert Split("") == [""];
    assert Parse(m, [""], 0, eval) == Parse(m, [""], 1, eval);
  }
}
