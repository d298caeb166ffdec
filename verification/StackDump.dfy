/** The parser of goroutine dumps. */
module StackDump {
  import opened Text

  datatype Info = Info(id: nat, state: string, topFunc: string, raw: string)

  const HEAD: string := "goroutine "

  predicate IsHeader(line: string) {
    HEAD <= line
  }

  predicate EndsBlock(line: string) {
    line == "" || IsHeader(line)
  }

  /** The first line at or after `i` that ends a block, or the number of lines. */
  function BlockEnd(lines: seq<string>, i: nat): (end: nat)
    requires i <= |lines|
    ensures i <= end <= |lines|
    ensures forall k :: i <= k < end ==> !EndsBlock(lines[k])
    ensures end < |lines| ==> EndsBlock(lines[end])
    decreases |lines| - i
  {
    if i < |lines| && !EndsBlock(lines[i]) then BlockEnd(lines, i + 1) else i
  }

  function TrimPrefix(line: string): string {
    if IsHeader(line) then line[|HEAD|..] else line
  }

  /** The id in a header line, and what follows it. */
  function IdOf(line: string): (nat, string) {
    var rest := TrimPrefix(line);
    var sp := IndexOf(rest, ' ');
    if sp > 0 then (ParseUint(rest[..sp]), rest[sp..]) else (0, rest)
  }

  function CutWait(state: string): string {
    var c := IndexOf(state, ',');
    if c > 0 then state[..c] else state
  }

  /** The state between brackets. As in the source, the place of `]` relative to `[` is
      compared with the place of `[` in the line. */
  function StateOf(rest: string): string {
    var lb := IndexOf(rest, '[');
    if lb < 0 then ""
    else
      var rb := IndexOf(rest[lb..], ']');
      if rb > lb then CutWait(rest[lb + 1..lb + rb]) else ""
  }

  function TopOf(frame: string): string {
    var p := IndexOf(frame, '(');
    TrimSpace(if p > 0 then frame[..p] else frame)
  }

  /** A header line and the lines that belong to it. */
  datatype Block = Block(head: string, body: seq<string>)

  function LinesOf(b: Block): seq<string> {
    [b.head] + b.body
  }

  function RecordOf(b: Block): Info {
    var (id, rest) := IdOf(b.head);
    Info(id, StateOf(rest), if b.body == [] then "" else TopOf(b.body[0]), Join(LinesOf(b)))
  }

  /** The block whose header is line `h`. */
  function BlockAt(lines: seq<string>, h: nat): Block
    requires h < |lines|
  {
    Block(lines[h], lines[h + 1..BlockEnd(lines, h + 1)])
  }

  /** The blocks that start at or after line `i`. */
  function Blocks(lines: seq<string>, i: nat): seq<Block>
    requires i <= |lines|
    decreases |lines| - i
  {
    if i == |lines| then []
    else if IsHeader(lines[i]) then [BlockAt(lines, i)] + Blocks(lines, BlockEnd(lines, i + 1))
    else Blocks(lines, i + 1)
  }

  function RecordsOf(bs: seq<Block>): seq<Info> {
    seq(|bs|, k requires 0 <= k < |bs| => RecordOf(bs[k]))
  }

  /** What parsing a text yields. */
  function Records(text: string): seq<Info> {
    RecordsOf(Blocks(Split(text), 0))
  }

  method ReadId(line: string) returns (id: nat, rest: string)
    ensures (id, rest) == IdOf(line)
  {
    id := 0;
    rest := TrimPrefix(line);
    var sp := IndexOf(rest, ' ');
    if sp > 0 {
      id := ParseUint(rest[..sp]);
      rest := rest[sp..];
    }
  }

  method ReadState(rest: string) returns (state: string)
    ensures state == StateOf(rest)
  {
    state := "";
    var lb := IndexOf(rest, '[');
    if lb >= 0 {
      var rb := IndexOf(rest[lb..], ']');
      if rb > lb {
        state := CutTail(rest[lb + 1..lb + rb]);
      }
    }
  }

  method CutTail(state: string) returns (cut: string)
    ensures cut == CutWait(state)
  {
    cut := state;
    var c := IndexOf(cut, ',');
    if c > 0 { cut := cut[..c]; }
  }

  method ReadTop(frame: string) returns (fn: string)
    ensures fn == TopOf(frame)
  {
    fn := frame;
    var p := IndexOf(fn, '(');
    if p > 0 { fn := fn[..p]; }
    fn := TrimSpace(fn);
  }

  method ReadBlock(lines: seq<string>, i: nat, end: nat) returns (info: Info)
    requires i < end <= |lines|
    ensures info == RecordOf(Block(lines[i], lines[i + 1..end]))
  {
    var id, rest := ReadId(lines[i]);
    var state := ReadState(rest);
    var topFunc := "";
    if i + 1 < end { topFunc := ReadTop(lines[i + 1]); }
    info := Info(id, state, topFunc, Join(lines[i..end]));
    RecordFrom(lines, i, end, info);
  }

  /** The source's loop, one method for each part of a record. */
  method ParseStacks(text: string) returns (out: seq<Info>)
    ensures out == Records(text)
  {
    var lines := Split(text);
    out := [];
    var i := 0;
    ghost var done: seq<Block> := [];
    while i < |lines|
      invariant 0 <= i <= |lines|
      invariant done + Blocks(lines, i) == Blocks(lines, 0)
      invariant out == RecordsOf(done)
    {
      if !IsHeader(lines[i]) {
        i := i + 1;
        continue;
      }
      var end := i + 1;
      while end < |lines| && lines[end] != "" && !IsHeader(lines[end])
        invariant i < end <= |lines|
        invariant BlockEnd(lines, end) == BlockEnd(lines, i + 1)
      {
        end := end + 1;
      }
      var info := ReadBlock(lines, i, end);
      Appended(done, BlockAt(lines, i), Blocks(lines, end));
      done := done + [BlockAt(lines, i)];
      out := out + [info];
      i := end;
    }
    assert done == Blocks(lines, 0);
  }

  lemma {:induction false} RecordFrom(lines: seq<string>, i: nat, end: nat, info: Info)
    requires i < end <= |lines| && info.id == IdOf(lines[i]).0 && info.state == StateOf(IdOf(lines[i]).1)
    requires info.topFunc == (if i + 1 < end then TopOf(lines[i + 1]) else "") && info.raw == Join(lines[i..end])
    ensures info == RecordOf(Block(lines[i], lines[i + 1..end]))
  {
    assert lines[i..end] == [lines[i]] + lines[i + 1..end];
  }

  lemma {:induction false} Appended<T>(a: seq<T>, x: T, b: seq<T>)
    ensures a + [x] + b == a + ([x] + b)
  {
  }

  // ---------- one record per header ----------

  /** The places of the header lines at or after `i`, in order. */
  function Headers(lines: seq<string>, i: nat): seq<nat>
    requires i <= |lines|
    decreases |lines| - i
  {
    if i == |lines| then [] else (if IsHeader(lines[i]) then [i] else []) + Headers(lines, i + 1)
  }

  lemma {:induction false} SkipBody(lines: seq<string>, i: nat, end: nat)
    requires i <= end <= |lines| && forall k :: i <= k < end ==> !IsHeader(lines[k])
    ensures Headers(lines, i) == Headers(lines, end)
    decreases end - i
  {
    if i < end { SkipBody(lines, i + 1, end); }
  }

  lemma {:induction false} HeadersAreAll(lines: seq<string>, i: nat)
    requires i <= |lines|
    ensures forall h :: h in Headers(lines, i) <==> i <= h < |lines| && IsHeader(lines[h])
    ensures forall a, b :: 0 <= a < b < |Headers(lines, i)| ==> Headers(lines, i)[a] < Headers(lines, i)[b]
    decreases |lines| - i
  {
    if i < |lines| {
      HeadersAreAll(lines, i + 1);
      var rest := Headers(lines, i + 1);
      assert forall b :: 0 <= b < |rest| ==> rest[b] in rest;
    }
  }

  /** There are as many blocks, hence records, as header lines. */
  lemma {:induction false} OneBlockPerHeader(lines: seq<string>, i: nat)
    requires i <= |lines|
    ensures |Blocks(lines, i)| == |Headers(lines, i)|
    decreases |lines| - i
  {
    if i < |lines| {
      if IsHeader(lines[i]) {
        SkipBody(lines, i + 1, BlockEnd(lines, i + 1));
        OneBlockPerHeader(lines, BlockEnd(lines, i + 1));
      } else {
        OneBlockPerHeader(lines, i + 1);
      }
    }
  }

  ghost predicate IsBlockOf(lines: seq<string>, h: nat, b: Block) {
    h < |lines| && IsHeader(lines[h]) && b == BlockAt(lines, h)
  }

  /** The k-th block is that of the k-th header line. */
  lemma {:induction false} KthBlock(lines: seq<string>, i: nat, k: nat)
    requires i <= |lines| && k < |Blocks(lines, i)|
    ensures k < |Headers(lines, i)|
    ensures IsBlockOf(lines, Headers(lines, i)[k], Blocks(lines, i)[k])
    decreases |lines| - i
  {
    OneBlockPerHeader(lines, i);
    if IsHeader(lines[i]) {
      var end := BlockEnd(lines, i + 1);
      SkipBody(lines, i + 1, end);
      assert Headers(lines, i) == [i] + Headers(lines, end);
      if k > 0 { KthBlock(lines, end, k - 1); }
    } else {
      KthBlock(lines, i + 1, k);
    }
  }

  ghost predicate IsRecordOf(lines: seq<string>, h: nat, r: Info) {
    h < |lines| && IsHeader(lines[h]) && r == RecordOf(BlockAt(lines, h))
  }

  /** One record per line starting with the header word, in order, each of its own block. */
  lemma {:induction false} OneRecordPerHeader(text: string)
    ensures var hs := Headers(Split(text), 0);
      && |Records(text)| == |hs|
      && forall k :: 0 <= k < |hs| ==> IsRecordOf(Split(text), hs[k], Records(text)[k])
  {
    var lines := Split(text);
    OneBlockPerHeader(lines, 0);
    forall k | 0 <= k < |Headers(lines, 0)|
      ensures IsRecordOf(lines, Headers(lines, 0)[k], Records(text)[k])
    {
      KthBlock(lines, 0, k);
    }
  }

  /** Blocks do not overlap: one ends no later than the next header line begins. */
  lemma {:induction false} BlocksAreDisjoint(lines: seq<string>, g: nat, h: nat)
    requires g < h < |lines| && IsHeader(lines[h])
    ensures g + 1 + |BlockAt(lines, g).body| <= h
  {
  }

  /** Parsing a record's own text gives back that record alone. */
  lemma {:induction false} RawParsesToItself(text: string, k: nat)
    requires k < |Records(text)|
    ensures Records(Records(text)[k].raw) == [Records(text)[k]]
  {
    var lines := Split(text);
    KthBlock(lines, 0, k);
    JoinSplit(text);
    var b := Blocks(lines, 0)[k];
    SplitJoin(LinesOf(b));
    BlockEndIs(LinesOf(b), 1, |LinesOf(b)|);
    assert LinesOf(b)[1..] == b.body;
    assert BlockAt(LinesOf(b), 0) == b;
    assert Blocks(LinesOf(b), |LinesOf(b)|) == [];
  }

  lemma {:induction false} BlockEndIs(lines: seq<string>, i: nat, end: nat)
    requires i <= end <= |lines| && (end < |lines| ==> EndsBlock(lines[end]))
    requires forall k :: i <= k < end ==> !EndsBlock(lines[k])
    ensures BlockEnd(lines, i) == end
    decreases end - i
  {
    if i < end { BlockEndIs(lines, i + 1, end); }
  }

  // ---------- what is read from one header and one frame ----------

  lemma {:induction false} StateFrom(rest: string, lb: nat, rb: nat)
    requires IndexOf(rest, '[') == lb && IndexOf(rest[lb..], ']') == rb
    ensures StateOf(rest) == if rb > lb then CutWait(rest[lb..][1..rb]) else ""
  {
    assert rb > lb ==> rest[lb..][1..rb] == rest[lb + 1..lb + rb];
  }

  /** The state is read exactly when it is at least as long as what stands before the bracket:
      a place relative to the bracket is compared with one relative to the line. */
  lemma {:induction false} StateIsReadIff(before: string, state: string, after: string)
    requires '[' !in before && ']' !in state
    ensures var rest := before + (['['] + state + [']'] + after);
      StateOf(rest) == if |state| >= |before| then CutWait(state) else ""
  {
    var tail := ['['] + state + [']'] + after;
    var rest := before + tail;
    assert rest == before + ['['] + (state + [']'] + after);
    CutAt(before, '[', state + [']'] + after);
    assert rest[|before|..] == tail;
    CutAt(['['] + state, ']', after);
    assert tail[1..1 + |state|] == state;
    StateFrom(rest, |before|, 1 + |state|);
  }

  /** A header with more than the id before the bracket loses its state. */
  lemma {:induction false} LongHeaderLosesState()
    ensures StateOf(" gp=1 m=0 " + (['['] + "select" + [']'] + ":")) == ""
    ensures StateOf(" " + (['['] + "select" + [']'] + ":")) == "select"
  {
    StateIsReadIff(" gp=1 m=0 ", "select", ":");
    StateIsReadIff(" ", "select", ":");
  }

  /** A header whose id is followed by a space splits there. */
  lemma {:induction false} HeaderSplits(id: string, before: string, state: string, after: string)
    requires id != "" && ' ' !in id && before != "" && before[0] == ' '
    ensures var rest := before + (['['] + state + [']'] + after);
      var line := HEAD + (id + rest);
      IsHeader(line) && IdOf(line) == (ParseUint(id), rest)
  {
    var rest := before + (['['] + state + [']'] + after);
    var line := HEAD + (id + rest);
    assert rest == [' '] + rest[1..];
    assert line[|HEAD|..] == id + [' '] + rest[1..];
    CutAt(id, ' ', rest[1..]);
  }

  /** Without both brackets, in this order, there is no state. */
  lemma {:induction false} NoStateWithoutBrackets(before: string, after: string)
    requires '[' !in before
    ensures StateOf(before) == ""
    ensures ']' !in after ==> StateOf(before + (['['] + after)) == ""
  {
    var tail := ['['] + after;
    var rest := before + tail;
    assert rest == before + ['['] + after;
    CutAt(before, '[', after);
    assert ']' !in after ==> ']' !in tail && rest[|before|..] == tail;
  }

  /** The wait is cut off at the first comma, unless that is the first character. */
  lemma {:induction false} WaitIsCut(state: string, more: string)
    requires ',' !in state
    ensures CutWait(state) == state
    ensures CutWait(state + [','] + more) == if state != "" then state else [','] + more
  {
    CutAt(state, ',', more);
    assert state == "" ==> state + [','] + more == [','] + more;
  }

  lemma {:induction false} CutWaitCuts(state: string, wait: string)
    requires state != "" && ',' !in state && (wait == "" || wait[0] == ',')
    ensures CutWait(state + wait) == state
  {
    if wait == "" {
      assert state + wait == state;
    } else {
      WaitIsCut(state, wait[1..]);
      assert state + wait == state + [','] + wait[1..];
    }
  }

  /** A header has an id only if a space follows something: otherwise it is 0 and the whole rest
      is searched for a state. */
  lemma {:induction false} NoIdWithoutSpace(rest: string)
    requires ' ' !in rest || rest[0] == ' '
    ensures IdOf(HEAD + rest) == (0, rest)
  {
    assert (HEAD + rest)[|HEAD|..] == rest;
    if ' ' in rest { IndexIs(rest, ' ', 0); }
  }

  /** A frame without parenthesis, or with one in front, is taken whole. */
  lemma {:induction false} FrameWithoutCall(frame: string)
    requires '(' !in frame || frame[0] == '('
    ensures TopOf(frame) == TrimSpace(frame)
  {
    if '(' in frame { IndexIs(frame, '(', 0); }
  }

  lemma {:induction false} TrimKeepsTight(s: string)
    requires Tight(s)
    ensures TrimSpace(s) == s
  {
  }

  /** The function of a frame is read exactly when its name has no parenthesis: the name of a
      method with a pointer receiver is cut at its receiver. */
  lemma {:induction false} FunctionIsReadIff(fn: string, args: string)
    requires fn != "" && Tight(fn)
    ensures TopOf(fn + "(" + args) == fn <==> '(' !in fn
  {
    var frame := fn + "(" + args;
    assert frame == fn + ['('] + args;
    if '(' !in fn {
      CutAt(fn, '(', args);
      TrimKeepsTight(fn);
    } else {
      var p := IndexOf(fn, '(');
      assert frame[..p] == fn[..p];
      IndexIs(frame, '(', p);
      if p == 0 { ParenthesesStay(fn, args); }
      var i, j := TrimSpaceIsTight(frame[..p]);
    }
  }

  /** Trimming does not reach past the parenthesis behind a name that begins with one. */
  lemma {:induction false} ParenthesesStay(fn: string, args: string)
    requires fn != "" && fn[0] == '('
    ensures TrimSpace(fn + "(" + args) != fn
  {
    var frame := fn + "(" + args;
    var i, j := TrimSpaceIsTight(frame);
    BlankHasNoParenthesis(frame[..i]);
    BlankHasNoParenthesis(frame[j..]);
    assert forall m :: j <= m < |frame| ==> frame[m] in frame[j..];
    assert frame[0] == '(' && frame[|fn|] == '(';
  }

  lemma {:induction false} PointerReceiverIsCut()
    ensures TopOf("main.(*pool).run(0x1)") == "main."
  {
    var frame := "main.(*pool).run(0x1)";
    assert frame == "main." + ['('] + "*pool).run(0x1)";
    CutAt("main.", '(', "*pool).run(0x1)");
    TrimKeepsTight("main.");
  }

  // ---------- round trip ----------

  /** What a dump says of one goroutine. */
  datatype Goroutine = Goroutine(id: nat, state: string, wait: string, frames: seq<string>)

  ghost predicate Printable(g: Goroutine) {
    && g.id <= MAX_UINT64
    && g.state != "" && ',' !in g.state && ']' !in g.state && '\n' !in g.state
    && (g.wait == "" || g.wait[0] == ',') && ']' !in g.wait && '\n' !in g.wait
    && forall k :: 0 <= k < |g.frames| ==> !EndsBlock(g.frames[k]) && '\n' !in g.frames[k]
  }

  function HeaderLine(g: Goroutine): string {
    HEAD + (Decimal(g.id) + (" " + (['['] + (g.state + g.wait) + [']'] + ":")))
  }

  function BlockOf(g: Goroutine): Block {
    Block(HeaderLine(g), g.frames)
  }

  /** The record that stands for a goroutine. */
  function InfoOf(g: Goroutine): Info {
    Info(g.id, g.state, if g.frames == [] then "" else TopOf(g.frames[0]), Join(LinesOf(BlockOf(g))))
  }

  function Blanks(n: nat): seq<string> {
    seq(n, _ => "")
  }

  /** All blocks, each followed by some number of blank lines, possibly none. */
  function Dump(gs: seq<Goroutine>, gaps: seq<nat>): seq<string>
    requires |gs| == |gaps|
  {
    if gs == [] then [] else LinesOf(BlockOf(gs[0])) + Blanks(gaps[0]) + Dump(gs[1..], gaps[1..])
  }

  function BlocksOf(gs: seq<Goroutine>): seq<Block> {
    seq(|gs|, i requires 0 <= i < |gs| => BlockOf(gs[i]))
  }

  function InfosOf(gs: seq<Goroutine>): seq<Info> {
    seq(|gs|, i requires 0 <= i < |gs| => InfoOf(gs[i]))
  }

  lemma {:induction false} Without<T>(c: T, a: seq<T>, b: seq<T>)
    requires c !in a && c !in b
    ensures c !in a + b
  {
  }

  lemma {:induction false} HeaderIsOneLine(g: Goroutine)
    requires Printable(g)
    ensures IsHeader(HeaderLine(g)) && '\n' !in HeaderLine(g)
  {
    DecimalValue(g.id);
    var tail := ['['] + (g.state + g.wait) + [']'] + ":";
    assert '\n' !in tail;
    Without('\n', " ", tail);
    Without('\n', Decimal(g.id), " " + tail);
    Without('\n', HEAD, Decimal(g.id) + (" " + tail));
  }

  lemma {:induction false} BlockIsRead(g: Goroutine)
    requires Printable(g)
    ensures RecordOf(BlockOf(g)) == InfoOf(g)
  {
    DecimalValue(g.id);
    ParseDecimal(g.id);
    HeaderSplits(Decimal(g.id), " ", g.state + g.wait, ":");
    StateIsReadIff(" ", g.state + g.wait, ":");
    CutWaitCuts(g.state, g.wait);
  }

  lemma {:induction false} SkipBlanks(lines: seq<string>, i: nat, n: nat)
    requires i + n <= |lines| && forall k :: i <= k < i + n ==> lines[k] == ""
    ensures Blocks(lines, i) == Blocks(lines, i + n)
    decreases n
  {
    if n > 0 { SkipBlanks(lines, i + 1, n - 1); }
  }

  lemma {:induction false} BlocksShift(a: seq<string>, b: seq<string>, i: nat)
    requires i <= |b|
    ensures Blocks(a + b, |a| + i) == Blocks(b, i)
    decreases |b| - i
  {
    if i < |b| {
      assert (a + b)[|a| + i] == b[i];
      if IsHeader(b[i]) {
        var end := BlockEnd(b, i + 1);
        BlockEndIs(a + b, |a| + i + 1, |a| + end);
        assert (a + b)[|a| + i + 1..|a| + end] == b[i + 1..end];
        assert BlockAt(a + b, |a| + i) == BlockAt(b, i);
        BlocksShift(a, b, end);
        assert Blocks(a + b, |a| + i) == [BlockAt(b, i)] + Blocks(a + b, |a| + end);
      } else {
        BlocksShift(a, b, i + 1);
      }
    }
  }

  /** A block, then blank lines, then lines that do not go on with the block. */
  lemma {:induction false} FirstBlock(b: Block, gap: nat, more: seq<string>)
    requires IsHeader(b.head) && (forall k :: 0 <= k < |b.body| ==> !EndsBlock(b.body[k]))
    requires more != [] ==> EndsBlock(more[0])
    ensures Blocks(LinesOf(b) + Blanks(gap) + more, 0) == [b] + Blocks(more, 0)
  {
    var front := LinesOf(b) + Blanks(gap);
    var lines := front + more;
    var end := |LinesOf(b)|;
    assert forall k :: 1 <= k < end ==> lines[k] == b.body[k - 1];
    assert forall k :: end <= k < end + gap ==> lines[k] == "";
    assert end < |lines| && gap == 0 ==> lines[end] == more[0];
    BlockEndIs(lines, 1, end);
    assert lines[1..end] == b.body;
    SkipBlanks(lines, end, gap);
    BlocksShift(front, more, 0);
  }

  /** The lines of any printable dump fall into exactly the blocks of its goroutines. */
  lemma {:induction false} DumpHasBlocks(gs: seq<Goroutine>, gaps: seq<nat>)
    requires |gs| == |gaps| && forall g :: g in gs ==> Printable(g)
    ensures Blocks(Dump(gs, gaps), 0) == BlocksOf(gs)
    ensures OneLiners(Dump(gs, gaps))
    ensures gs != [] ==> Dump(gs, gaps) != [] && IsHeader(Dump(gs, gaps)[0])
  {
    if gs != [] {
      DumpHasBlocks(gs[1..], gaps[1..]);
      HeaderIsOneLine(gs[0]);
      FirstBlock(BlockOf(gs[0]), gaps[0], Dump(gs[1..], gaps[1..]));
      assert BlocksOf(gs) == [BlockOf(gs[0])] + BlocksOf(gs[1..]);
    }
  }

  /** Parsing inverts printing, for every list of printable goroutines and whether blocks are
      separated by blank lines or by nothing. */
  lemma {:induction false} ParseInvertsPrint(gs: seq<Goroutine>, gaps: seq<nat>)
    requires |gs| == |gaps| && forall g :: g in gs ==> Printable(g)
    ensures Records(Join(Dump(gs, gaps))) == InfosOf(gs)
  {
    DumpHasBlocks(gs, gaps);
    if gs != [] { SplitJoin(Dump(gs, gaps)); }
    forall k | 0 <= k < |gs| ensures RecordOf(BlocksOf(gs)[k]) == InfosOf(gs)[k] {
      BlockIsRead(gs[k]);
    }
  }
}
