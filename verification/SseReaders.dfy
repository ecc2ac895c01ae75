/** The two incremental readers of server-sent events: the chat reader (`consumeHermesSse`) and the
    run log reader (`streamRun`). Both cut the decoded stream at blank lines and carry the piece
    after the last blank line over to the next chunk. Chunks are the decoder's outputs, the last one
    being the flush after the end of the stream. */
module SseReaders {
  import opened Wrappers
  import opened Text

  datatype Event = Event(name: string, data: string)

  // ---------------------------------------------------------------- blocks

  function BlockName(lines: seq<string>): string {
    if lines == [] then "message"
    else if "event:" <= Last(lines) then Trim(Last(lines)[6..])
    else BlockName(Init(lines))
  }

  function LineData(line: string): seq<string> {
    if "data:" <= line then [TrimStart(line[5..])] else []
  }

  function BlockData(lines: seq<string>): seq<string> {
    FlatMap(LineData, lines)
  }

  /** A block without data line has no event. */
  function BlockEvents(block: string): seq<Event> {
    var lines := Split(block, LF);
    if BlockData(lines) == [] then [] else [Event(BlockName(lines), Join(BlockData(lines), LF))]
  }

  /** The events of complete blocks, in order. */
  function Dispatch(blocks: seq<string>): seq<Event> {
    FlatMap(BlockEvents, blocks)
  }

  /** The name is the trimmed rest of the last event line, and "message" without one. */
  lemma {:induction false} LastEventNames(lines: seq<string>)
    ensures (forall l | l in lines :: !("event:" <= l)) ==> BlockName(lines) == "message"
    ensures forall i | LastEventLine(lines, i) :: BlockName(lines) == Trim(lines[i][|"event:"|..])
  {
    if lines != [] {
      LastEventNames(Init(lines));
      assert forall l | l in Init(lines) :: l in lines;
      assert Last(lines) in lines;
      assert |"event:"| == 6;
      forall i | LastEventLine(lines, i) ensures BlockName(lines) == Trim(lines[i][|"event:"|..]) {
        if i < |lines| - 1 {
          assert LastEventLine(Init(lines), i);
          assert !("event:" <= lines[|lines| - 1]);
        }
      }
    }
  }

  predicate LastEventLine(lines: seq<string>, i: int) {
    0 <= i < |lines| && "event:" <= lines[i] && forall j | i < j < |lines| :: !("event:" <= lines[j])
  }

  /** Data lines give their payload without the white space before it, in order, and other lines nothing. */
  lemma DataInOrder(before: seq<string>, line: string, after: seq<string>)
    ensures BlockData(before + [line] + after) ==
            BlockData(before) + (if "data:" <= line then [TrimStart(line[|"data:"|..])] else []) + BlockData(after)
  {
    assert |"data:"| == 5;
    FlatMapConcat(LineData, before + [line], after);
    FlatMapConcat(LineData, before, [line]);
    FlatMapOne(LineData, line);
  }

  method ParseBlock(block: string) returns (name: string, dataLines: seq<string>)
    ensures name == BlockName(Split(block, LF))
    ensures dataLines == BlockData(Split(block, LF))
  {
    name, dataLines := "message", [];
    var lines := Split(block, LF);
    for i := 0 to |lines|
      invariant name == BlockName(lines[..i]) && dataLines == BlockData(lines[..i])
    {
      var line := lines[i];
      FlatMapNext(LineData, lines, i);
      assert Init(lines[..i + 1]) == lines[..i] && Last(lines[..i + 1]) == line;
      if "event:" <= line {
        assert line[0] == 'e';
        name := Trim(line[6..]);
      } else if "data:" <= line {
        dataLines := dataLines + [TrimStart(line[5..])];
      }
    }
    assert lines[..|lines|] == lines;
  }

  // ---------------------------------------------------------------- the chat reader

  /** What the chat reader has appended to its buffer over all chunks: each chunk normalised alone. */
  function NormaliseEach(chunks: seq<string>): string {
    if chunks == [] then "" else NormaliseEach(Init(chunks)) + Normalise(Last(chunks))
  }

  method DispatchBlocks(blocks: seq<string>) returns (events: seq<Event>)
    ensures events == Dispatch(blocks)
  {
    events := [];
    for i := 0 to |blocks|
      invariant events == Dispatch(blocks[..i])
    {
      var name, dataLines := ParseBlock(blocks[i]);
      FlatMapNext(BlockEvents, blocks, i);
      if dataLines != [] {
        events := events + [Event(name, Join(dataLines, LF))];
      }
    }
    assert blocks[..|blocks|] == blocks;
  }

  method ConsumeHermesSse(chunks: seq<string>) returns (events: seq<Event>, buffer: string)
    ensures buffer == Last(Split(NormaliseEach(chunks), BLANK))
    ensures events == Dispatch(Init(Split(NormaliseEach(chunks), BLANK)))
    ensures CutsOnlyBehind(chunks) ==> events == Dispatch(Init(Split(Normalise(Concat(chunks)), BLANK)))
  {
    buffer, events := "", [];
    ghost var handed := [];
    for i := 0 to |chunks|
      invariant Split(NormaliseEach(chunks[..i]), BLANK) == handed + [buffer]
      invariant events == Dispatch(handed)
    {
      assert Init(chunks[..i + 1]) == chunks[..i] && Last(chunks[..i + 1]) == chunks[i];
      FeedBuffer(NormaliseEach(chunks[..i]), handed, buffer, Normalise(chunks[i]));
      var blocks := Split(buffer + Normalise(chunks[i]), BLANK);
      FlatMapConcat(BlockEvents, handed, Init(blocks));
      buffer, blocks := Last(blocks), Init(blocks);
      var more := DispatchBlocks(blocks);
      events, handed := events + more, handed + blocks;
    }
    assert chunks[..|chunks|] == chunks;
    assert Init(handed + [buffer]) == handed;
    ChatHandsOn(chunks);
  }

  lemma FeedBuffer(before: string, handed: seq<string>, buffer: string, more: string)
    requires Split(before, BLANK) == handed + [buffer]
    ensures Split(before + more, BLANK) == handed + Init(Split(buffer + more, BLANK)) +
            [Last(Split(buffer + more, BLANK))]
  {
    HandedLast(before, BLANK);
    SplitCarry(before, buffer + more, BLANK);
    Associate(Handed(before, BLANK), buffer, more);
    assert Init(handed + [buffer]) == handed;
    InitThenLast(handed, Split(buffer + more, BLANK));
  }

  lemma InitThenLast(before: seq<string>, pieces: seq<string>)
    requires |pieces| > 0
    ensures before + pieces == before + Init(pieces) + [Last(pieces)]
  {
  }

  /** Some chunk boundary separates a CR from the LF after it. */
  predicate CutsSomeCrLf(chunks: seq<string>) {
    chunks != [] && (CutsSomeCrLf(Init(chunks)) || CutsCrLf(Concat(Init(chunks)), Last(chunks)))
  }

  lemma {:induction false} ConcatInit(chunks: seq<string>)
    requires chunks != []
    ensures Concat(chunks) == Concat(Init(chunks)) + Last(chunks)
  {
    if |chunks| > 1 {
      var c, t := chunks[0], chunks[1..];
      ConcatInit(t);
      assert Init(chunks) == [c] + Init(t);
      Associate(c, Concat(Init(t)), Last(t));
    }
  }

  lemma {:induction false} ChatNormalisesWhole(chunks: seq<string>)
    ensures |Normalise(Concat(chunks))| <= |NormaliseEach(chunks)|
    ensures CutsSomeCrLf(chunks) ==> |Normalise(Concat(chunks))| < |NormaliseEach(chunks)|
    ensures !CutsSomeCrLf(chunks) ==> NormaliseEach(chunks) == Normalise(Concat(chunks))
  {
    if chunks != [] {
      ChatNormalisesWhole(Init(chunks));
      ConcatInit(chunks);
      NormaliseConcat(Concat(Init(chunks)), Last(chunks));
    }
  }

  /** The chat reader's blocks and buffer are those of one split of the whole normalised stream
      exactly when no chunk boundary separates a CR from its LF. */
  lemma ChatChunking(chunks: seq<string>)
    ensures Split(NormaliseEach(chunks), BLANK) == Split(Normalise(Concat(chunks)), BLANK) <==> !CutsSomeCrLf(chunks)
  {
    ChatNormalisesWhole(chunks);
    JoinSplit(NormaliseEach(chunks), BLANK);
    JoinSplit(Normalise(Concat(chunks)), BLANK);
  }

  /** Where in the normalised stream the first CR LF that a chunk boundary separates has its LF. */
  function FirstCut(chunks: seq<string>): Option<int> {
    if chunks == [] then None
    else
      var before := FirstCut(Init(chunks));
      if before.Some? then before
      else if CutsCrLf(Concat(Init(chunks)), Last(chunks)) then Some(|Normalise(Concat(Init(chunks)))| - 1)
      else None
  }

  /** No chunk boundary separates a CR LF before the end of the last blank line of the normalised stream. */
  predicate CutsOnlyBehind(chunks: seq<string>) {
    FirstCut(chunks).Some? ==> FirstCut(chunks).value >= |Handed(Normalise(Concat(chunks)), BLANK)|
  }

  /** Up to p the reader's text is the normalised stream; there it has kept a CR, and later only more. */
  ghost predicate CutAt(p: int, each: string, whole: string) {
    && 0 <= p < |whole| && p < |each| && each[..p] == whole[..p] && each[p] == '\r' && whole[p] == '\n'
    && Thins(each[p..], whole[p..])
  }

  lemma {:induction false} FirstCutSplits(chunks: seq<string>)
    ensures var each, whole, p := NormaliseEach(chunks), Normalise(Concat(chunks)), FirstCut(chunks);
      if p.None? then each == whole else CutAt(p.value, each, whole)
  {
    if chunks != [] {
      ConcatInit(chunks);
      FirstCutSplits(Init(chunks));
      FirstCutStep(Concat(Init(chunks)), Last(chunks), NormaliseEach(Init(chunks)), FirstCut(Init(chunks)));
    }
  }

  lemma FirstCutStep(s: string, c: string, each: string, before: Option<int>)
    requires if before.None? then each == Normalise(s) else CutAt(before.value, each, Normalise(s))
    ensures before.Some? ==> CutAt(before.value, each + Normalise(c), Normalise(s + c))
    ensures before.None? && CutsCrLf(s, c) ==> CutAt(|Normalise(s)| - 1, each + Normalise(c), Normalise(s + c))
    ensures before.None? && !CutsCrLf(s, c) ==> each + Normalise(c) == Normalise(s + c)
  {
    if CutsCrLf(s, c) {
      NormaliseCut(s, c);
      if before.Some? {
        CutAgain(before.value, each, Normalise(s), Normalise(c));
      } else {
        CutFirst(Normalise(s), Normalise(c));
      }
    } else {
      NormaliseConcat(s, c);
      if before.Some? { CutLater(before.value, each, Normalise(s), Normalise(c)); }
    }
  }

  lemma CutLater(p: int, each: string, whole: string, x: string)
    requires CutAt(p, each, whole)
    ensures CutAt(p, each + x, whole + x)
  {
    ThinsAppend(each[p..], whole[p..], x);
    assert (each + x)[p..] == each[p..] + x && (whole + x)[p..] == whole[p..] + x;
  }

  lemma CutAgain(p: int, each: string, whole: string, x: string)
    requires CutAt(p, each, whole) && Last(whole) == '\r'
    ensures CutAt(p, each + x, Init(whole) + x)
  {
    assert p < |whole| - 1;
    ThinsDrop(each[p..], whole[p..]);
    assert Init(whole[p..]) == Init(whole)[p..] && Init(whole)[..p] == whole[..p];
    CutLater(p, each, Init(whole), x);
  }

  lemma CutFirst(whole: string, x: string)
    requires whole != "" && Last(whole) == '\r' && x != "" && x[0] == '\n'
    ensures CutAt(|whole| - 1, whole + x, Init(whole) + x)
  {
    var p := |whole| - 1;
    ThinsSelf(x);
    assert (whole + x)[p..] == "\r" + x && (Init(whole) + x)[p..] == x;
    assert ("\r" + x)[1..] == x;
  }

  /** The blocks that the chat reader hands on are those of one split of the whole normalised stream
      exactly when every separated CR LF lies behind its last blank line. */
  lemma ChatHandsOn(chunks: seq<string>)
    ensures var whole := Normalise(Concat(chunks));
      Init(Split(NormaliseEach(chunks), BLANK)) == Init(Split(whole, BLANK)) <==>
      CutsOnlyBehind(chunks)
  {
    FirstCutSplits(chunks);
    if FirstCut(chunks).Some? {
      CutDecides(FirstCut(chunks).value, NormaliseEach(chunks), Normalise(Concat(chunks)));
    }
  }

  lemma CutDecides(p: int, each: string, whole: string)
    requires CutAt(p, each, whole)
    ensures Init(Split(each, BLANK)) == Init(Split(whole, BLANK)) <==> p >= |Handed(whole, BLANK)|
  {
    var h := Handed(whole, BLANK);
    HandedLast(whole, BLANK);
    HandedLast(each, BLANK);
    if p >= |h| {
      CutBehind(p, each, whole, h);
    } else if Init(Split(each, BLANK)) == Init(Split(whole, BLANK)) {
      BlocksGiveHanded(each, whole);
      CutWithin(p, each, whole, h);
    }
  }

  lemma CutWithin(p: int, each: string, whole: string, h: string)
    requires CutAt(p, each, whole) && h <= whole && p < |h|
    ensures !(h <= each)
  {
    assert whole[p] == h[p];
    assert each[p] != h[p];
  }

  lemma CutBehind(p: int, each: string, whole: string, h: string)
    requires CutAt(p, each, whole) && h == Handed(whole, BLANK) && p >= |h|
    ensures Init(Split(each, BLANK)) == Init(Split(whole, BLANK))
  {
    var last := Last(Split(whole, BLANK));
    HandedLast(whole, BLANK);
    var x, e := whole[|h|..p], each[|h|..];
    SlicesMeet(whole, |h|, p);
    SlicesMeet(each, |h|, p);
    assert whole[..|h|] == h && last == whole[|h|..];
    ThinsPrefix(x, each[p..], whole[p..]);
    LastNoBlank(whole);
    ThinsNoBlank(e, last);
    HandsOnSame(whole, e);
  }

  // ---------------------------------------------------------------- the run log reader

  /** All pieces the run log reader has cut after the chunks: the blocks handed on, then the buffer.
      It normalises buffer and chunk together. */
  function RunPieces(chunks: seq<string>): (pieces: seq<string>)
    ensures |pieces| > 0
  {
    if chunks == [] then [""]
    else
      var before := RunPieces(Init(chunks));
      Init(before) + Split(Normalise(Last(before) + Last(chunks)), BLANK)
  }

  /** The payload of the first data line of a block, if any. */
  function RunPayload(lines: seq<string>): Option<string> {
    if lines == [] then None
    else if "data:" <= lines[0] then Some(lines[0][5..])
    else RunPayload(lines[1..])
  }

  /** That is the rest of the first line that begins with `data:`, as it is. */
  lemma {:induction false} FirstDataLine(lines: seq<string>)
    ensures RunPayload(lines).None? <==> forall l | l in lines :: !("data:" <= l)
    ensures forall i | FirstData(lines, i) :: RunPayload(lines) == Some(lines[i][|"data:"|..])
  {
    assert |"data:"| == 5;
    if lines != [] {
      FirstDataLine(lines[1..]);
      assert lines[0] in lines && forall l | l in lines[1..] :: l in lines;
      assert forall l | l in lines :: l == lines[0] || l in lines[1..];
      forall i | FirstData(lines, i) ensures RunPayload(lines) == Some(lines[i][|"data:"|..]) {
        if i > 0 {
          assert lines[1..][i - 1] == lines[i];
          assert FirstData(lines[1..], i - 1);
        }
      }
    }
  }

  predicate FirstData(lines: seq<string>, i: int) {
    0 <= i < |lines| && "data:" <= lines[i] && forall j | 0 <= j < i :: !("data:" <= lines[j])
  }

  function RunPayloads(blocks: seq<string>): seq<string> {
    FlatMap(BlockPayload, blocks)
  }

  function BlockPayload(block: string): seq<string> {
    var payload := RunPayload(Split(block, LF));
    if payload.Some? then [payload.value] else []
  }

  /** The payloads before the first one that does not parse. */
  function Parsed(payloads: seq<string>, parse: string -> Option<string>): (good: seq<string>) {
    if payloads == [] || parse(payloads[0]).None? then [] else [payloads[0]] + Parsed(payloads[1..], parse)
  }

  lemma {:induction false} ParsedConcat(a: seq<string>, b: seq<string>, parse: string -> Option<string>)
    requires Parsed(a, parse) == a
    ensures Parsed(a + b, parse) == a + Parsed(b, parse)
  {
    if a == [] {
      assert a + b == b;
    } else {
      var c, t := a[0], a[1..];
      assert Parsed(t, parse) == Parsed(a, parse)[1..] == t;
      ParsedConcat(t, b, parse);
      assert (a + b)[1..] == t + b;
      assert a + Parsed(b, parse) == [c] + (t + Parsed(b, parse));
    }
  }

  /** A payload that does not parse ends the reading, whatever follows it. */
  lemma ParsedStops(good: seq<string>, bad: string, rest: seq<string>, parse: string -> Option<string>)
    requires Parsed(good, parse) == good && parse(bad).None?
    ensures Parsed(good + [bad] + rest, parse) == good
  {
    assert good + [bad] + rest == good + ([bad] + rest);
    ParsedConcat(good, [bad] + rest, parse);
  }

  const TERMINAL_EVENTS := {"run.completed", "run.failed", "run.cancelled"}

  predicate HasTerminal(payloads: seq<string>, parse: string -> Option<string>) {
    exists p | p in payloads :: parse(p).Some? && parse(p).value in TERMINAL_EVENTS
  }

  /** Some payload has one of the three events that end a run. */
  lemma TerminalExactly(payloads: seq<string>, parse: string -> Option<string>)
    ensures HasTerminal(payloads, parse) <==> exists p | p in payloads ::
              parse(p) in {Some("run.completed"), Some("run.failed"), Some("run.cancelled")}
  {
  }

  lemma HasTerminalConcat(a: seq<string>, b: seq<string>, parse: string -> Option<string>)
    ensures HasTerminal(a + b, parse) <==> HasTerminal(a, parse) || HasTerminal(b, parse)
  {
  }

  method FindPayload(block: string) returns (payload: Option<string>)
    ensures payload == RunPayload(Split(block, LF))
  {
    var lines := Split(block, LF);
    for i := 0 to |lines|
      invariant RunPayload(lines) == RunPayload(lines[i..])
    {
      if "data:" <= lines[i] {
        return Some(lines[i][5..]);
      }
      assert lines[i..][1..] == lines[i + 1..];
    }
    payload := None;
  }

  /** `parse` stands for JSON.parse: the `event` field of a payload, or nothing where it throws, which
      ends the reader. The ghost results name the payload it throws on and those after it. */
  method HandOn(blocks: seq<string>, parse: string -> Option<string>)
    returns (handed: seq<string>, terminalEvent: bool, threw: bool, ghost bad: string, ghost rest: seq<string>)
    ensures Parsed(handed, parse) == handed
    ensures if threw then parse(bad).None? && RunPayloads(blocks) == handed + [bad] + rest
            else RunPayloads(blocks) == handed
    ensures terminalEvent <==> HasTerminal(handed, parse)
  {
    handed, terminalEvent, threw := [], false, false;
    bad, rest := "", [];
    for i := 0 to |blocks|
      invariant RunPayloads(blocks[..i]) == handed == Parsed(handed, parse)
      invariant terminalEvent <==> HasTerminal(handed, parse)
    {
      var payload := FindPayload(blocks[i]);
      FlatMapNext(BlockPayload, blocks, i);
      FlatMapSplit(BlockPayload, blocks, i + 1);
      if payload.Some? {
        var event := parse(payload.value);
        if event.None? {
          threw, bad, rest := true, payload.value, RunPayloads(blocks[i + 1..]);
          return;
        }
        ParsedConcat(handed, [payload.value], parse);
        handed := handed + [payload.value];
        terminalEvent := terminalEvent || event.value in TERMINAL_EVENTS;
      }
    }
    assert blocks[..|blocks|] == blocks;
  }

  /** What the reader holds after the chunks read so far, none of whose payloads failed to parse. */
  ghost predicate RunState(read: seq<string>, finished: seq<string>, buffer: string, handed: seq<string>,
                           terminal: bool, parse: string -> Option<string>)
  {
    && RunPieces(read) == finished + [buffer]
    && RunPayloads(finished) == handed
    && Parsed(handed, parse) == handed
    && (terminal <==> HasTerminal(handed, parse))
  }

  lemma RunStep(chunks: seq<string>, i: nat, finished: seq<string>, buffer: string, handed: seq<string>,
                more: seq<string>, terminal: bool, last: bool, parse: string -> Option<string>)
    requires i < |chunks| && RunState(chunks[..i], finished, buffer, handed, terminal, parse)
    requires var blocks := Split(Normalise(buffer + chunks[i]), BLANK);
      RunPayloads(Init(blocks)) == more && Parsed(more, parse) == more && (last <==> HasTerminal(more, parse))
    ensures var blocks := Split(Normalise(buffer + chunks[i]), BLANK);
      RunState(chunks[..i + 1], finished + Init(blocks), Last(blocks), handed + more, terminal || last, parse)
  {
    RunPiecesNext(chunks, i, finished, buffer);
    FlatMapConcat(BlockPayload, finished, Init(Split(Normalise(buffer + chunks[i]), BLANK)));
    ParsedConcat(handed, more, parse);
    HasTerminalConcat(handed, more, parse);
  }

  method StreamRun(chunks: seq<string>, parse: string -> Option<string>)
    returns (handed: seq<string>, terminalEvent: bool, threw: bool)
    ensures handed == Parsed(RunPayloads(Init(RunPieces(chunks))), parse)
    ensures threw <==> handed != RunPayloads(Init(RunPieces(chunks)))
    ensures terminalEvent <==> exists p | p in handed ::
              parse(p) in {Some("run.completed"), Some("run.failed"), Some("run.cancelled")}
  {
    var buffer := "";
    handed, terminalEvent, threw := [], false, false;
    ghost var finished: seq<string> := [];
    for i := 0 to |chunks|
      invariant RunState(chunks[..i], finished, buffer, handed, terminalEvent, parse)
    {
      var blocks := Split(Normalise(buffer + chunks[i]), BLANK);
      var more, terminal, stopped, bad, rest := HandOn(Init(blocks), parse);
      if stopped {
        StoppedEarly(chunks, i, finished, buffer, handed, more, bad, rest, parse);
        HasTerminalConcat(handed, more, parse);
        TerminalExactly(handed + more, parse);
        return handed + more, terminalEvent || terminal, true;
      }
      RunStep(chunks, i, finished, buffer, handed, more, terminalEvent, terminal, parse);
      buffer, finished := Last(blocks), finished + Init(blocks);
      handed, terminalEvent := handed + more, terminalEvent || terminal;
    }
    assert chunks[..|chunks|] == chunks;
    assert Init(finished + [buffer]) == finished;
    TerminalExactly(handed, parse);
  }

  /** If a payload does not parse, the reader has handed on just those before it. */
  lemma StoppedEarly(chunks: seq<string>, i: nat, finished: seq<string>, buffer: string, handed: seq<string>,
                     more: seq<string>, bad: string, rest: seq<string>, parse: string -> Option<string>)
    requires i < |chunks| && RunPieces(chunks[..i]) == finished + [buffer]
    requires RunPayloads(finished) == handed == Parsed(handed, parse)
    requires RunPayloads(Init(Split(Normalise(buffer + chunks[i]), BLANK))) == more + [bad] + rest
    requires Parsed(more, parse) == more && parse(bad).None?
    ensures Parsed(RunPayloads(Init(RunPieces(chunks))), parse) == handed + more != RunPayloads(Init(RunPieces(chunks)))
  {
    var blocks := Split(Normalise(buffer + chunks[i]), BLANK);
    RunPiecesNext(chunks, i, finished, buffer);
    var later := PayloadsSoFar(chunks, i + 1, finished + Init(blocks), Last(blocks));
    FlatMapConcat(BlockPayload, finished, Init(blocks));
    ParsedConcat(handed, more, parse);
    StopsFor(handed, more, bad, rest, later, parse);
  }

  lemma PayloadsSoFar(chunks: seq<string>, i: nat, finished: seq<string>, buffer: string) returns (later: seq<string>)
    requires i <= |chunks| && RunPieces(chunks[..i]) == finished + [buffer]
    ensures RunPayloads(Init(RunPieces(chunks))) == RunPayloads(finished) + later
  {
    assert Init(finished + [buffer]) == finished;
    PiecesGrow(chunks, i);
    var all := Init(RunPieces(chunks));
    FlatMapSplit(BlockPayload, all, |finished|);
    assert all[..|finished|] == finished;
    later := RunPayloads(all[|finished|..]);
  }

  lemma StopsFor(a: seq<string>, b: seq<string>, bad: string, rest: seq<string>, later: seq<string>,
                 parse: string -> Option<string>)
    requires Parsed(a + b, parse) == a + b && parse(bad).None?
    ensures var all := a + (b + [bad] + rest) + later; Parsed(all, parse) == a + b != all
  {
    var all := a + (b + [bad] + rest) + later;
    assert all == a + b + [bad] + (rest + later);
    ParsedStops(a + b, bad, rest + later, parse);
    assert |all| > |a + b|;
  }

  lemma RunPiecesNext(chunks: seq<string>, i: nat, finished: seq<string>, buffer: string)
    requires i < |chunks| && RunPieces(chunks[..i]) == finished + [buffer]
    ensures var pieces := Split(Normalise(buffer + chunks[i]), BLANK);
      RunPieces(chunks[..i + 1]) == finished + Init(pieces) + [Last(pieces)]
  {
    assert Init(chunks[..i + 1]) == chunks[..i] && Last(chunks[..i + 1]) == chunks[i];
    var pieces := Split(Normalise(buffer + chunks[i]), BLANK);
    assert Init(finished + [buffer]) == finished;
    InitThenLast(finished, pieces);
  }

  lemma {:induction false} PiecesGrow(chunks: seq<string>, i: nat)
    requires i <= |chunks|
    ensures Init(RunPieces(chunks[..i])) <= Init(RunPieces(chunks))
  {
    if i < |chunks| {
      var c := Init(chunks);
      assert c[..i] == chunks[..i];
      PiecesGrow(c, i);
      var before := RunPieces(c);
      assert Init(before) <= Init(RunPieces(chunks));
    } else {
      assert chunks[..i] == chunks;
    }
  }

  /** Without CR CR LF in the stream, every chunking gives the pieces of one split of the whole. */
  lemma {:induction false} RunReadsWhole(chunks: seq<string>)
    requires NoCrCrLf(Concat(chunks))
    ensures RunPieces(chunks) == Split(Normalise(Concat(chunks)), BLANK)
  {
    if chunks != [] {
      var s, c := Concat(Init(chunks)), Last(chunks);
      ConcatInit(chunks);
      NoCrCrLfPrefix(s, c);
      RunReadsWhole(Init(chunks));
      RunFeeds(s, c);
    }
  }

  lemma RunFeeds(s: string, c: string)
    requires NoCrCrLf(s + c)
    ensures var pieces := Split(Normalise(s), BLANK);
      Split(Normalise(s + c), BLANK) == Init(pieces) + Split(Normalise(Last(pieces) + c), BLANK)
  {
    var n := Normalise(s);
    var h, buffer := Handed(n, BLANK), Last(Split(n, BLANK));
    HandedLast(n, BLANK);
    NormaliseOnce(s, c);
    Associate(h, buffer, c);
    NormaliseConcat(h, buffer + c);
    NoCrCrLfPrefix(s, c);
    HandedIsNormal(s);
    SplitCarry(n, Normalise(buffer + c), BLANK);
  }

  lemma HandedIsNormal(s: string)
    requires NoCrCrLf(s)
    ensures Normalise(Handed(Normalise(s), BLANK)) == Handed(Normalise(s), BLANK)
  {
    var n := Normalise(s);
    var h, buffer := Handed(n, BLANK), Last(Split(n, BLANK));
    HandedLast(n, BLANK);
    assert s + "" == s && n + "" == n;
    NormaliseOnce(s, "");
    NormaliseConcat(h, buffer);
    NormaliseShrinks(h);
    NormaliseShrinks(buffer);
    assert Normalise(h) + Normalise(buffer) == h + buffer;
    assert Normalise(h) == (Normalise(h) + Normalise(buffer))[..|h|];
  }

  /** Where the stream has a CR CR LF, cutting right behind it makes the reader normalise its buffer
      a second time, and the pieces differ from those of one split. */
  lemma RunCutAfterCrCrLf(s: string, i: int)
    requires CrCrLfAt(s, i)
    ensures Concat([s[..i + 1], s[i + 1..]]) == s
    ensures RunPieces([s[..i + 1], s[i + 1..]]) != Split(Normalise(s), BLANK)
  {
    var w, a, v := s[..i - 1], s[..i + 1], s[i + 1..];
    assert a == w + "\r\n" && a + v == s;
    ConcatTwo(a, v);
    RunTwo(a, v);
    RunTwoDiffers(w, v);
  }

  lemma ConcatTwo(a: string, v: string)
    ensures Concat([a, v]) == a + v
  {
    ConcatInit([a, v]);
    assert Init([a, v]) == [a] && [a][1..] == [] && a + "" == a;
  }

  lemma RunTwoDiffers(w: string, v: string)
    requires w != "" && Last(w) == '\r'
    ensures var pieces := Split(Normalise(w + "\r\n"), BLANK);
      Init(pieces) + Split(Normalise(Last(pieces) + v), BLANK) != Split(Normalise(w + "\r\n" + v), BLANK)
  {
    var a := w + "\r\n";
    var n := Normalise(a);
    NormaliseConcat(w, "\r\n");
    NormaliseCrLfAlone();
    NormaliseKeepsCr(w);
    NormaliseConcat(a, v);
    BufferKeepsCrLf(Normalise(w));
    HandedLast(n, BLANK);
    var h, buffer := Handed(n, BLANK), Last(Split(n, BLANK));
    BufferShrinks(buffer, v);
    SplitCarry(n, Normalise(buffer + v), BLANK);
    JoinSplit(h + Normalise(buffer + v), BLANK);
    JoinSplit(n + Normalise(v), BLANK);
  }

  lemma BufferShrinks(buffer: string, v: string)
    requires |buffer| >= 2 && Last(buffer) == '\n' && buffer[|buffer| - 2] == '\r'
    ensures |Normalise(buffer + v)| < |buffer| + |Normalise(v)|
  {
    var b := buffer[..|buffer| - 2];
    assert buffer == b + "\r\n";
    NormaliseConcat(b, "\r\n");
    NormaliseCrLfAlone();
    NormaliseShrinks(b);
    NormaliseConcat(buffer, v);
  }

  lemma NormaliseKeepsCr(w: string)
    requires w != "" && Last(w) == '\r'
    ensures Normalise(w) != "" && Last(Normalise(w)) == '\r'
  {
    var u := Init(w);
    assert w == u + "\r";
    NormaliseConcat(u, "\r");
  }

  /** A piece that ends in CR LF does not end in a blank line, so the splitter keeps it whole. */
  lemma BufferKeepsCrLf(m: string)
    requires m != "" && Last(m) == '\r'
    ensures var buffer := Last(Split(m + "\n", BLANK));
      |buffer| >= 2 && Last(buffer) == '\n' && buffer[|buffer| - 2] == '\r'
  {
    var n := m + "\n";
    HandedLast(n, BLANK);
    HandedEndsBlank(n);
    assert n[|n| - 2] == '\r' && Last(n) == '\n';
    EndsInBuffer(Handed(n, BLANK), Last(Split(n, BLANK)));
  }

  lemma EndsInBuffer(h: string, buffer: string)
    requires |h + buffer| >= 2 && (h + buffer)[|h + buffer| - 2] == '\r'
    requires h != "" ==> |h| >= 2 && Last(h) == '\n' && h[|h| - 2] == '\n'
    ensures |buffer| >= 2 && Last(buffer) == Last(h + buffer) && buffer[|buffer| - 2] == '\r'
  {
  }

  lemma {:induction false} HandedEndsBlank(s: string)
    ensures var h := Handed(s, BLANK); h != "" ==> |h| >= 2 && Last(h) == '\n' && h[|h| - 2] == '\n'
  {
    if |s| >= 2 {
      if BLANK <= s {
        HandedEndsBlank(s[2..]);
      } else {
        HandedEndsBlank(s[1..]);
      }
    }
  }

  lemma RunTwo(a: string, v: string)
    ensures var pieces := Split(Normalise(a), BLANK);
      RunPieces([a, v]) == Init(pieces) + Split(Normalise(Last(pieces) + v), BLANK)
  {
    RunOne(a);
    assert Init([a, v]) == [a] && Last([a, v]) == v;
  }

  lemma RunOne(a: string)
    ensures RunPieces([a]) == Split(Normalise(a), BLANK)
  {
    assert Init([a]) == [] && Last([a]) == a && "" + a == a;
    assert RunPieces([]) == [""] && Init([""]) == [];
  }

  /** The run log reader agrees with one split of the whole normalised stream for every chunking
      exactly when the stream has no CR CR LF. */
  lemma RunChunking(s: string)
    ensures (forall chunks | Concat(chunks) == s :: RunPieces(chunks) == Split(Normalise(s), BLANK)) <==> NoCrCrLf(s)
  {
    if NoCrCrLf(s) {
      forall chunks | Concat(chunks) == s ensures RunPieces(chunks) == Split(Normalise(s), BLANK) {
        RunReadsWhole(chunks);
      }
    } else {
      var i :| CrCrLfAt(s, i);
      RunCutAfterCrCrLf(s, i);
    }
  }

  /** The stream up to the last blank line of its normal form, and behind it. */
  function Head(s: string): string {
    s[..RawLength(s, |HandedOn(s)|)]
  }

  function Rest(s: string): string {
    s[RawLength(s, |HandedOn(s)|)..]
  }

  function HandedOn(s: string): (h: string)
    ensures |h| <= |Normalise(s)|
  {
    HandedLast(Normalise(s), BLANK);
    Handed(Normalise(s), BLANK)
  }

  lemma HeadAndRest(s: string)
    ensures s == Head(s) + Rest(s)
    ensures Normalise(Head(s)) == HandedOn(s) && Normalise(Rest(s)) == Last(Split(Normalise(s), BLANK))
    ensures NoBlank(Normalise(Rest(s)))
    ensures Head(s) != "" ==> Last(Head(s)) == '\n'
  {
    var h, w := HandedOn(s), Last(Split(Normalise(s), BLANK));
    HandedLast(Normalise(s), BLANK);
    LastNoBlank(Normalise(s));
    RawLengthSplits(s, |h|);
    Between(s, RawLength(s, |h|), h, w);
    if Head(s) != "" { NormaliseLast(Head(s)); }
  }

  lemma Between(s: string, m: nat, h: string, w: string)
    requires SplitsAt(s, m, |h|) && Normalise(s) == h + w
    ensures s == s[..m] + s[m..] && Normalise(s[..m]) == h && Normalise(s[m..]) == w
  {
  }

  /** The blocks that the run log reader hands on are those of one split of the whole normalised stream,
      for every chunking, exactly when the stream has no CR CR LF up to its last blank line and, behind
      it, no LF that only CRs separate from the next. */
  lemma RunHandsOn(s: string)
    ensures (forall chunks | Concat(chunks) == s :: Init(RunPieces(chunks)) == Init(Split(Normalise(s), BLANK))) <==>
            NoCrCrLf(Head(s)) && Gapless(Rest(s), false)
  {
    if NoCrCrLf(Head(s)) && Gapless(Rest(s), false) {
      forall chunks | Concat(chunks) == s ensures Init(RunPieces(chunks)) == Init(Split(Normalise(s), BLANK)) {
        RunHandsOnWhole(chunks);
      }
    } else if !NoCrCrLf(Head(s)) {
      var i :| CrCrLfAt(Head(s), i);
      var chunks := RunCutInside(s, i);
    } else {
      var chunks := RunClosesGap(s);
    }
  }

  /** After any chunks the reader's text is the normalised stream with some runs of CRs before LFs thinned. */
  lemma {:induction false} RunText(chunks: seq<string>) returns (text: string)
    ensures RunPieces(chunks) == Split(text, BLANK) && RunThins(Normalise(Concat(chunks)), text)
  {
    if chunks == [] {
      text := "";
    } else {
      var before := RunText(Init(chunks));
      var c := Last(chunks);
      ConcatInit(chunks);
      HandedLast(before, BLANK);
      var h, buffer := Handed(before, BLANK), Last(Split(before, BLANK));
      text := h + Normalise(buffer + c);
      SplitCarry(before, Normalise(buffer + c), BLANK);
      RunTextNext(Concat(Init(chunks)), c, h, buffer);
    }
  }

  lemma RunTextNext(s: string, c: string, h: string, buffer: string)
    requires RunThins(Normalise(s), h + buffer) && (h != "" ==> Last(h) == '\n')
    ensures RunThins(Normalise(s + c), h + Normalise(buffer + c))
  {
    var again := h + Normalise(buffer);
    NormaliseThins(buffer);
    RunThinsPrefix(h, buffer, Normalise(buffer));
    RunThinsThrough(Normalise(s), h + buffer, again);
    LastsAgree(s, h, buffer);
    if CutsCrLf(s, c) {
      NormaliseCut(s, c);
      NormaliseCut(buffer, c);
      RunThinsLast(Normalise(s), again);
      assert Init(again) == h + Init(Normalise(buffer));
      RunThinsAppend(Init(Normalise(s)), Init(again), Normalise(c));
      Associate(h, Init(Normalise(buffer)), Normalise(c));
    } else {
      NormaliseConcat(s, c);
      NormaliseConcat(buffer, c);
      RunThinsAppend(Normalise(s), again, Normalise(c));
      Associate(h, Normalise(buffer), Normalise(c));
    }
  }

  /** The buffer ends with a CR just if the stream does. */
  lemma LastsAgree(s: string, h: string, buffer: string)
    requires RunThins(Normalise(s), h + buffer) && (h != "" ==> Last(h) == '\n')
    ensures (s != "" && Last(s) == '\r') <==> (buffer != "" && Last(buffer) == '\r')
  {
    if s != "" {
      NormaliseLast(s);
      RunThinsLast(Normalise(s), h + buffer);
      if buffer == "" { assert h + buffer == h; }
    } else {
      assert h + buffer == "";
    }
  }

  lemma RunHandsOnWhole(chunks: seq<string>)
    requires NoCrCrLf(Head(Concat(chunks))) && Gapless(Rest(Concat(chunks)), false)
    ensures Init(RunPieces(chunks)) == Init(Split(Normalise(Concat(chunks)), BLANK))
  {
    var s := Concat(chunks);
    var text := RunText(chunks);
    HeadAndRest(s);
    HandedLast(Normalise(s), BLANK);
    var h, w := HandedOn(s), Normalise(Rest(s));
    HeadNormal(s);
    var u := RunThinsBehind(h, w, text);
    RestThinned(Rest(s), u);
    HandsOnSame(Normalise(s), u);
  }

  lemma HeadNormal(s: string)
    requires NoCrCrLf(Head(s))
    ensures NoCrLf(HandedOn(s))
  {
    HeadAndRest(s);
    Associate(Head(s), "", "");
    assert Head(s) + "" == Head(s) && HandedOn(s) + "" == HandedOn(s);
    NormaliseOnce(Head(s), "");
    NormalHasNoCrLf(HandedOn(s));
  }

  lemma RestThinned(rest: string, u: string)
    requires Gapless(rest, false) && RunThins(Normalise(rest), u)
    ensures NoBlank(u)
  {
    NormaliseThins(rest);
    GaplessThinned(rest, Normalise(rest), false);
    GaplessThinned(Normalise(rest), u, false);
    GaplessNoBlank(u, false);
  }

  /** A cut right behind a CR CR LF in the text handed on. */
  lemma RunCutInside(s: string, i: int) returns (chunks: seq<string>)
    requires CrCrLfAt(Head(s), i)
    ensures Concat(chunks) == s && Init(RunPieces(chunks)) != Init(Split(Normalise(s), BLANK))
  {
    HeadAndRest(s);
    var w, x := Head(s)[..i - 1], Head(s)[i + 1..];
    var v := x + Rest(s);
    assert Head(s) == w + "\r\n" + x && s == w + "\r\n" + v;
    chunks := [w + "\r\n", v];
    ConcatTwo(w + "\r\n", v);
    RunTwo(w + "\r\n", v);
    var b := CutBuffer(w);
    NormaliseConcat(w + "\r\n", x);
    NormaliseConcat(w + "\r\n", v);
    var h := Handed(Normalise(w + "\r\n"), BLANK);
    SplitCarry(Normalise(w + "\r\n"), Normalise(b + "\r\n" + v), BLANK);
    CutLoses(h, b, x, v, s);
  }

  lemma CutLoses(h: string, b: string, x: string, v: string, s: string)
    requires HandedOn(s) == h + (b + "\r\n") + Normalise(x)
    ensures Init(Split(h + Normalise(b + "\r\n" + v), BLANK)) != Init(Split(Normalise(s), BLANK))
  {
    ReNormalised(b, v);
    StretchLost(h, b, Normalise(x), Normalise(v), HandedOn(s));
    HandedIsPrefix(h + (Normalise(b) + "\n" + Normalise(v)), s);
  }

  lemma HandedIsPrefix(text: string, s: string)
    requires !(HandedOn(s) <= text)
    ensures Init(Split(text, BLANK)) != Init(Split(Normalise(s), BLANK))
  {
    HandedLast(text, BLANK);
    if Init(Split(text, BLANK)) == Init(Split(Normalise(s), BLANK)) {
      BlocksGiveHanded(text, Normalise(s));
    }
  }

  lemma StretchLost(h: string, b: string, x: string, z: string, handed: string)
    requires handed == h + (b + "\r\n") + x
    ensures !(handed <= h + (Normalise(b) + "\n" + z))
  {
    var text := h + (Normalise(b) + "\n" + z);
    if Normalise(b) == b {
      assert handed[|h| + |b|] == '\r' && text[|h| + |b|] == '\n';
    } else {
      var j := NormaliseDiffers(b);
      assert handed[|h| + j] == '\r' && text[|h| + j] == '\n';
    }
  }

  lemma ReNormalised(b: string, v: string)
    ensures Normalise(b + "\r\n" + v) == Normalise(b) + "\n" + Normalise(v)
  {
    NormaliseConcat(b + "\r\n", v);
    NormaliseConcat(b, "\r\n");
    NormaliseCrLfAlone();
  }

  /** A gap behind the last blank line: cut behind it, and read on until its CRs are gone. */
  lemma RunClosesGap(s: string) returns (chunks: seq<string>)
    requires !Gapless(Rest(s), false)
    ensures Concat(chunks) == s && Init(RunPieces(chunks)) != Init(Split(Normalise(s), BLANK))
  {
    HeadAndRest(s);
    var open, y, k, z := GapFound(Rest(s), false);
    chunks := ReadOnce(s, y, k, z);
  }

  lemma ReadOnce(s: string, y: string, k: nat, z: string) returns (chunks: seq<string>)
    requires s == Head(s) + (Gap(y, k) + z) && Rest(s) == Gap(y, k) + z
    ensures Concat(chunks) == s && Init(RunPieces(chunks)) != Init(Split(Normalise(s), BLANK))
  {
    var p, blocks := Head(s) + Gap(y, k), Init(Split(Normalise(s), BLANK));
    Associate(Head(s), Gap(y, k), z);
    var y' := GapHeld(s, y, k, z);
    ConcatOne(p);
    var more := Rounds([p], blocks, y', if k == 0 then 0 else k - 1);
    chunks := ReadMore(more, blocks, z);
  }

  lemma ReadMore(more: seq<string>, blocks: seq<string>, z: string) returns (chunks: seq<string>)
    requires |Init(RunPieces(more))| > |blocks|
    ensures Concat(chunks) == Concat(more) + z && |Init(RunPieces(chunks))| > |blocks|
  {
    chunks := more + [z];
    ConcatInit(chunks);
    assert Init(chunks) == more && Last(chunks) == z;
  }

  lemma ConcatOne(p: string)
    ensures Concat([p]) == p
  {
    assert [p][1..] == [] && p + "" == p;
  }

  /** After the first chunk the reader has handed on all blocks, and holds the gap. */
  lemma GapHeld(s: string, y: string, k: nat, z: string) returns (y': string)
    requires Rest(s) == Gap(y, k) + z
    ensures RunPieces([Head(s) + Gap(y, k)]) ==
            Init(Split(Normalise(s), BLANK)) + [Gap(y', if k == 0 then 0 else k - 1)]
    ensures NoBlank(Gap(y', if k == 0 then 0 else k - 1))
  {
    HeadAndRest(s);
    NormaliseGap(y, k);
    y' := Init(Normalise(y + "\n"));
    var held := Gap(y', if k == 0 then 0 else k - 1);
    NormaliseConcat(Head(s), Gap(y, k));
    NormaliseConcat(Gap(y, k), z);
    NoBlankPrefix(held, Normalise(z));
    RunOne(Head(s) + Gap(y, k));
    SplitCarry(Normalise(s), held, BLANK);
    SplitNoBlank(held);
  }

  lemma NoBlankPrefix(a: string, b: string)
    requires NoBlank(a + b)
    ensures NoBlank(a)
  {
    assert forall i {:trigger a[i]} | 0 < i < |a| :: (a + b)[i] == a[i] && (a + b)[i - 1] == a[i - 1];
  }

  /** Empty chunks normalise the held piece again, until its gap is closed and more is handed on. */
  lemma {:induction false} Rounds(chunks: seq<string>, blocks: seq<string>, y: string, j: nat)
      returns (more: seq<string>)
    requires RunPieces(chunks) == blocks + [Gap(y, j)] && NoBlank(Gap(y, j))
    ensures Concat(more) == Concat(chunks) && |Init(RunPieces(more))| > |blocks|
    decreases j
  {
    if j == 0 { ClosedGap(y); }
    more := chunks + [""];
    ConcatInit(more);
    assert Init(more) == chunks && Last(more) == "" && Concat(chunks) + "" == Concat(chunks);
    var held := Gap(y, j);
    assert Init(blocks + [held]) == blocks && Last(blocks + [held]) == held && held + "" == held;
    NormaliseGap(y, j);
    var next := Init(Normalise(y + "\n"));
    if |Split(Normalise(held), BLANK)| == 1 {
      HandedLast(Normalise(held), BLANK);
      Associate("", "", Last(Split(Normalise(held), BLANK)));
      SplitNoBlank(Normalise(held));
      more := Rounds(more, blocks, next, j - 1);
    }
  }

  lemma CutBuffer(w: string) returns (b: string)
    requires w != "" && Last(w) == '\r'
    ensures Last(Split(Normalise(w + "\r\n"), BLANK)) == b + "\r\n"
    ensures Normalise(w + "\r\n") == Handed(Normalise(w + "\r\n"), BLANK) + (b + "\r\n")
  {
    NormaliseConcat(w, "\r\n");
    NormaliseCrLfAlone();
    NormaliseKeepsCr(w);
    BufferKeepsCrLf(Normalise(w));
    HandedLast(Normalise(w + "\r\n"), BLANK);
    var buffer := Last(Split(Normalise(w + "\r\n"), BLANK));
    b := buffer[..|buffer| - 2];
  }

  // ---------------------------------------------------------------- print, then read

  /** An event as the server prints it: a trimmed one-line name and the lines of its payload. */
  datatype Printable = Printable(name: string, lines: seq<string>)

  predicate BreakFree(s: string) {
    '\n' !in s && '\r' !in s
  }

  predicate WellFormed(e: Printable) {
    && BreakFree(e.name) && Trim(e.name) == e.name
    && e.lines != []
    && forall l | l in e.lines :: BreakFree(l) && TrimStart(l) == l
  }

  function DataLines(lines: seq<string>): seq<string> {
    if lines == [] then [] else DataLines(Init(lines)) + ["data: " + Last(lines)]
  }

  function PrintLines(e: Printable): seq<string> {
    ["event: " + e.name] + DataLines(e.lines)
  }

  function Print(events: seq<Printable>): string {
    if events == [] then "" else Join(PrintLines(events[0]), LF) + (BLANK + Print(events[1..]))
  }

  function Read(e: Printable): Event {
    Event(e.name, Join(e.lines, LF))
  }

  function ReadAll(events: seq<Printable>): seq<Event> {
    if events == [] then [] else [Read(events[0])] + ReadAll(events[1..])
  }

  function Bodies(events: seq<Printable>): seq<string> {
    if events == [] then [] else [Join(PrintLines(events[0]), LF)] + Bodies(events[1..])
  }

  lemma TrimLabel(name: string)
    requires Trim(name) == name
    ensures Trim(" " + name) == name
  {
    TrimTwice(name);
    assert (" " + name)[1..] == name;
  }

  lemma {:induction false} TrimTwice(s: string)
    requires Trim(s) == s
    ensures TrimStart(s) == s
  {
    TrimSizes(s);
    TrimEndSizes(TrimStart(s));
  }

  lemma {:induction false} TrimSizes(s: string)
    ensures |TrimStart(s)| <= |s| && (|TrimStart(s)| == |s| ==> TrimStart(s) == s)
  {
    if s != "" && IsSpace(s[0]) { TrimSizes(s[1..]); }
  }

  lemma {:induction false} TrimEndSizes(s: string)
    ensures |TrimEnd(s)| <= |s|
  {
    if s != "" && IsSpace(Last(s)) { TrimEndSizes(Init(s)); }
  }

  /** Each printed line is one non-empty line. */
  lemma {:induction false} PrintedLines(lines: seq<string>)
    requires forall l | l in lines :: BreakFree(l)
    ensures |DataLines(lines)| == |lines|
    ensures forall l | l in DataLines(lines) :: BreakFree(l) && l != ""
  {
    if lines != [] {
      assert forall l | l in Init(lines) :: l in lines;
      PrintedLines(Init(lines));
      assert Last(lines) in lines;
      BreakFreeAppend("data: ", Last(lines));
    }
  }

  lemma BreakFreeAppend(a: string, b: string)
    requires BreakFree(a) && BreakFree(b)
    ensures BreakFree(a + b)
  {
  }

  lemma BlockDataLine(lines: seq<string>, l: string)
    requires TrimStart(l) == l
    ensures BlockName(lines + ["data: " + l]) == BlockName(lines)
    ensures BlockData(lines + ["data: " + l]) == BlockData(lines) + [l]
  {
    var text := "data: " + l;
    assert Last(lines + [text]) == text && Init(lines + [text]) == lines;
    assert text[0] == 'd' && text[5..] == " " + l && (" " + l)[1..] == l;
    FlatMapConcat(LineData, lines, [text]);
    FlatMapOne(LineData, text);
  }

  lemma BlockEventLine(name: string)
    requires Trim(name) == name
    ensures BlockName(["event: " + name]) == name
    ensures BlockData(["event: " + name]) == []
  {
    var head := "event: " + name;
    TrimLabel(name);
    assert head[6..] == " " + name;
    assert Last([head]) == head && Init([head]) == [];
    assert head[0] == 'e';
    FlatMapOne(LineData, head);
  }

  /** The block parser recovers name and payload lines from the printed lines of an event. */
  lemma {:induction false} ParsePrinted(name: string, lines: seq<string>)
    requires Trim(name) == name
    requires forall l | l in lines :: TrimStart(l) == l
    ensures BlockName(["event: " + name] + DataLines(lines)) == name
    ensures BlockData(["event: " + name] + DataLines(lines)) == lines
  {
    var head := ["event: " + name];
    if lines == [] {
      BlockEventLine(name);
      assert head + [] == head;
    } else {
      var l, before := Last(lines), Init(lines);
      assert l in lines && forall x | x in before :: x in lines;
      ParsePrinted(name, before);
      assert before + [l] == lines;
      ParsePrintedLine(head, before, l);
    }
  }

  lemma ParsePrintedLine(head: seq<string>, before: seq<string>, l: string)
    requires TrimStart(l) == l && BlockData(head + DataLines(before)) == before
    ensures BlockName(head + DataLines(before + [l])) == BlockName(head + DataLines(before))
    ensures BlockData(head + DataLines(before + [l])) == before + [l]
  {
    assert Init(before + [l]) == before;
    Associate(head, DataLines(before), ["data: " + l]);
    BlockDataLine(head + DataLines(before), l);
  }

  /** Joined non-empty lines have no blank line inside and none at the end. */
  lemma {:induction false} JoinedIsBlock(lines: seq<string>)
    requires lines != []
    requires forall l | l in lines :: BreakFree(l) && l != ""
    ensures var body := Join(lines, LF);
      && body != "" && '\r' !in body && Last(body) != '\n' && body[0] != '\n'
      && forall i {:trigger body[i]} | 0 < i < |body| :: body[i] != '\n' || body[i - 1] != '\n'
  {
    var head := lines[0];
    assert head in lines;
    if |lines| > 1 {
      var rest := Join(lines[1..], LF);
      JoinedIsBlock(lines[1..]);
      var body := head + LF + rest;
      assert Last(body) == Last(rest) && body[0] == head[0];
      forall i {:trigger body[i]} | 0 < i < |body| ensures body[i] != '\n' || body[i - 1] != '\n' {
        if i < |head| {
          assert body[i] == head[i];
        } else if i == |head| {
          assert body[i - 1] == head[i - 1];
        } else if i == |head| + 1 {
          assert body[i] == rest[0];
        } else {
          assert body[i] == rest[i - |head| - 1] && body[i - 1] == rest[i - |head| - 2];
        }
      }
    }
  }

  /** One split of the printed stream has one block an event, and an empty rest. */
  lemma {:induction false} SplitPrinted(events: seq<Printable>)
    requires forall e | e in events :: WellFormed(e)
    ensures '\r' !in Print(events)
    ensures Split(Print(events), BLANK) == Bodies(events) + [""]
  {
    if events != [] {
      var e, rest := events[0], events[1..];
      SplitPrinted(rest);
      PrintedIsBlock(e);
      SplitBlock(Join(PrintLines(e), LF), Print(rest));
      Associate([Join(PrintLines(e), LF)], Bodies(rest), [""]);
    }
  }

  lemma PrintedIsBlock(e: Printable)
    requires WellFormed(e)
    ensures var body := Join(PrintLines(e), LF);
      && body != "" && '\r' !in body && Last(body) != '\n'
      && forall i {:trigger body[i]} | 0 < i < |body| :: body[i] != '\n' || body[i - 1] != '\n'
    ensures forall l | l in PrintLines(e) :: BreakFree(l) && l != ""
  {
    PrintedLines(e.lines);
    BreakFreeAppend("event: ", e.name);
    JoinedIsBlock(PrintLines(e));
  }

  lemma {:induction false} DispatchPrinted(events: seq<Printable>)
    requires forall e | e in events :: WellFormed(e)
    ensures Dispatch(Bodies(events)) == ReadAll(events)
  {
    if events != [] {
      var e, rest := events[0], events[1..];
      assert e in events && forall x | x in rest :: x in events;
      DispatchPrinted(rest);
      DispatchOne(e);
      FlatMapCons(BlockEvents, Join(PrintLines(e), LF), Bodies(rest));
    }
  }

  lemma DispatchOne(e: Printable)
    requires WellFormed(e)
    ensures BlockEvents(Join(PrintLines(e), LF)) == [Read(e)]
  {
    PrintedIsBlock(e);
    SplitJoinLines(PrintLines(e));
    ParsePrinted(e.name, e.lines);
  }

  /** Printing events and reading the stream back in any chunks gives the same names and payloads. */
  lemma PrintReadRoundTrip(events: seq<Printable>, chunks: seq<string>)
    requires forall e | e in events :: WellFormed(e)
    requires Concat(chunks) == Print(events)
    ensures Dispatch(Init(Split(NormaliseEach(chunks), BLANK))) == ReadAll(events)
  {
    SplitPrinted(events);
    NoCutWithoutCr(chunks);
    ChatNormalisesWhole(chunks);
    NormaliseWithoutCr(Concat(chunks));
    assert Init(Bodies(events) + [""]) == Bodies(events);
    DispatchPrinted(events);
  }

  lemma {:induction false} NoCutWithoutCr(chunks: seq<string>)
    requires '\r' !in Concat(chunks)
    ensures !CutsSomeCrLf(chunks)
  {
    if chunks != [] {
      ConcatInit(chunks);
      NoCutWithoutCr(Init(chunks));
    }
  }
}
