/**
 * The stream-reading loop that src/api/chat.js runs inside the browser for
 * a streaming completion (lines 524-597). The body arrives as decoded
 * text chunks; it is cut into lines on '\n', the unfinished last line is
 * carried over to the next chunk, and every `data: ` line is parsed as a
 * JSON chunk of the service's delta format. The wire format is a reduced
 * form of the "Server-sent events" format of the WHATWG HTML Living
 * Standard, section 9.2: only `data:` fields are read, one per line. JSON
 * parsing is the abstract function `parse`, `None` when it throws.
 */
module StreamDecoder {
  import opened Util
  import opened JsonValues

  /** The variables of the loop: `buffer`, `fullContent`, `responseId`,
   *  `usage` and `finished`. */
  datatype DecodeState = DecodeState(buffer: string, text: string, responseId: Json, usage: Json, finished: bool)

  const Start: DecodeState := DecodeState([], [], JNull, JNull, false)

  /** The payload of a line worth parsing: non-blank, starting with
   *  `data: `, with a non-blank remainder (trimmed). */
  function DataPayload(line: string): Option<string> {
    if Trim(line) == [] || !StartsWith(line, "data: ") then None
    else
      var payload := Trim(line[6..]);
      if payload == [] then None else Some(payload)
  }

  function Delta(chunk: Json): Json {
    Get(First(Get(chunk, "choices")), "delta")
  }

  /** The text a parsed chunk appends: `choices[0].delta.content` when
   *  truthy, as string concatenation renders it. */
  function DeltaText(chunk: Json): string {
    var delta := Delta(chunk);
    if Truthy(delta) && Truthy(Get(delta, "content")) then JsText(Get(delta, "content")) else []
  }

  /** The effect of one parsed chunk. A `null` chunk throws on its first
   *  property read, before anything has changed. */
  function ApplyChunk(st: DecodeState, chunk: Json): DecodeState {
    if chunk.JNull? then st
    else
      var created := Get(chunk, "response.created");
      var delta := Delta(chunk);
      st.(responseId := if Truthy(created) then Get(created, "response_id") else st.responseId,
          text := st.text + DeltaText(chunk),
          finished := st.finished || (Truthy(delta) && Get(delta, "status") == JStr("finished")),
          usage := if Truthy(Get(chunk, "usage")) then Get(chunk, "usage") else st.usage)
  }

  /** The effect of one complete line; lines that are not parsed, or whose
   *  parse throws, change nothing. */
  function ApplyLine(st: DecodeState, line: string, parse: string -> Option<Json>): DecodeState {
    match DataPayload(line)
    case None => st
    case Some(payload) =>
      match parse(payload)
      case None => st
      case Some(chunk) => ApplyChunk(st, chunk)
  }

  /** The `for (const line of lines)` loop, in order. */
  function ApplyLines(st: DecodeState, lines: seq<string>, parse: string -> Option<Json>): DecodeState
    decreases |lines|
  {
    if lines == [] then st
    else ApplyLine(ApplyLines(st, lines[..|lines| - 1], parse), lines[|lines| - 1], parse)
  }

  /** One pass of the `while` body after a read: the complete lines of
   *  the buffer with the chunk appended go through the line loop, and
   *  what is left over (`lines.pop() || ''`) becomes the buffer. */
  function Feed(st: DecodeState, chunk: string, parse: string -> Option<Json>): DecodeState {
    var text := st.buffer + chunk;
    ApplyLines(st.(buffer := Pending(text, '\n')), Complete(text, '\n'), parse)
  }

  /** The reading loop: stop once finished or when the body is done. */
  function DecodeFrom(st: DecodeState, chunks: seq<string>, parse: string -> Option<Json>): DecodeState
    decreases |chunks|
  {
    if st.finished || chunks == [] then st
    else DecodeFrom(Feed(st, chunks[0], parse), chunks[1..], parse)
  }

  datatype Decoded = Decoded(id: Json, content: string, usage: Json, responseId: Json)

  const ZeroUsage: Json :=
    JObj(map["prompt_tokens" := JNum(0), "completion_tokens" := JNum(0), "total_tokens" := JNum(0)])

  /** The completion the loop hands back: the id defaults to
   *  `chatcmpl-<stamp>`, the usage to zeros. */
  function Finish(st: DecodeState, stamp: nat): (r: Decoded)
    ensures Truthy(r.id) && Truthy(r.usage)
    ensures Truthy(st.responseId) ==> r.id == st.responseId
    ensures !Truthy(st.responseId) ==> r.id == JStr("chatcmpl-" + NatToString(stamp))
    ensures r.content == st.text && r.responseId == st.responseId
  {
    Decoded(if Truthy(st.responseId) then st.responseId else JStr("chatcmpl-" + NatToString(stamp)),
            st.text,
            if Truthy(st.usage) then st.usage else ZeroUsage,
            st.responseId)
  }

  function Decode(chunks: seq<string>, parse: string -> Option<Json>, stamp: nat): Decoded {
    Finish(DecodeFrom(Start, chunks, parse), stamp)
  }

  // ---------------------------------------------------------------------
  // The loop as the source writes it
  // ---------------------------------------------------------------------

  method ProcessLines(st0: DecodeState, lines: seq<string>, parse: string -> Option<Json>) returns (st: DecodeState)
    ensures st == ApplyLines(st0, lines, parse)
  {
    st := st0;
    var i := 0;
    while i < |lines|
      invariant 0 <= i <= |lines|
      invariant st == ApplyLines(st0, lines[..i], parse)
    {
      assert lines[..i + 1][..i] == lines[..i];
      st := ApplyLine(st, lines[i], parse);
      i := i + 1;
    }
    assert lines[..i] == lines;
  }

  method DecodeStream(chunks: seq<string>, parse: string -> Option<Json>, stamp: nat) returns (result: Decoded)
    ensures result == Decode(chunks, parse, stamp)
  {
    var st := Start;
    var next := 0;
    while !st.finished
      invariant 0 <= next <= |chunks|
      invariant DecodeFrom(st, chunks[next..], parse) == DecodeFrom(Start, chunks, parse)
      decreases |chunks| - next
    {
      if next == |chunks| {
        break;
      }
      assert chunks[next..][0] == chunks[next] && chunks[next..][1..] == chunks[next + 1..];
      var lines := Split(st.buffer + chunks[next], '\n');
      st := st.(buffer := lines[|lines| - 1]);
      st := ProcessLines(st, lines[..|lines| - 1], parse);
      next := next + 1;
    }
    result := Finish(st, stamp);
  }

  // ---------------------------------------------------------------------
  // Properties
  // ---------------------------------------------------------------------

  lemma {:induction false} ApplyLinesAppend(st: DecodeState, a: seq<string>, b: seq<string>, parse: string -> Option<Json>)
    ensures ApplyLines(st, a + b, parse) == ApplyLines(ApplyLines(st, a, parse), b, parse)
    decreases |b|
  {
    if b == [] {
      assert a + b == a;
    } else {
      ApplyLinesAppend(st, a, b[..|b| - 1], parse);
      assert (a + b)[..|a + b| - 1] == a + b[..|b| - 1];
    }
  }

  /** The carried-over buffer never holds a line break: every complete line
   *  is handed to the line loop as soon as its '\n' arrives. */
  lemma FeedBuffer(st: DecodeState, chunk: string, parse: string -> Option<Json>)
    ensures '\n' !in Feed(st, chunk, parse).buffer
    ensures Feed(st, chunk, parse).buffer == Pending(st.buffer + chunk, '\n')
  {
    var text := st.buffer + chunk;
    ApplyLinesBuffer(st.(buffer := Pending(text, '\n')), Complete(text, '\n'), parse);
  }

  /** The line loop leaves the buffer alone. */
  lemma {:induction false} ApplyLinesBuffer(st: DecodeState, lines: seq<string>, parse: string -> Option<Json>)
    ensures ApplyLines(st, lines, parse).buffer == st.buffer
  {
    if lines != [] {
      ApplyLinesBuffer(st, lines[..|lines| - 1], parse);
    }
  }

  /** A read is the line loop over the complete lines, with the buffer
   *  then set to the unfinished rest. */
  lemma FeedAsLines(st: DecodeState, c: string, parse: string -> Option<Json>)
    ensures var text := st.buffer + c;
            Feed(st, c, parse) == ApplyLines(st, Complete(text, '\n'), parse).(buffer := Pending(text, '\n'))
  {
    var text := st.buffer + c;
    ApplyLinesBufferIrrelevant(st, Pending(text, '\n'), Complete(text, '\n'), parse);
  }

  /** Chunk boundaries do not matter to the line loop: two reads in a row
   *  have the same effect as one read of both texts. */
  lemma FeedAppend(st: DecodeState, a: string, b: string, parse: string -> Option<Json>)
    ensures Feed(Feed(st, a, parse), b, parse) == Feed(st, a + b, parse)
  {
    var t := st.buffer + a;
    FeedTwice(st, a, b, parse);
    FeedJoined(st, a, b, parse);
    ApplyLinesAppend(st, Complete(t, '\n'), Complete(Pending(t, '\n') + b, '\n'), parse);
  }

  /** Two reads: the lines of the first, then those the second completes. */
  lemma FeedTwice(st: DecodeState, a: string, b: string, parse: string -> Option<Json>)
    ensures var t := st.buffer + a;
            var u := Pending(t, '\n') + b;
            Feed(Feed(st, a, parse), b, parse)
            == ApplyLines(ApplyLines(st, Complete(t, '\n'), parse), Complete(u, '\n'), parse).(buffer := Pending(u, '\n'))
  {
    var t := st.buffer + a;
    var sa := Feed(st, a, parse);
    var head := ApplyLines(st, Complete(t, '\n'), parse);
    FeedAsLines(st, a, parse);
    assert sa == head.(buffer := Pending(t, '\n'));
    FeedAsLines(sa, b, parse);
    ApplyLinesBufferIrrelevant(head, sa.buffer, Complete(sa.buffer + b, '\n'), parse);
  }

  /** One read of both texts: the same lines, the same rest. */
  lemma FeedJoined(st: DecodeState, a: string, b: string, parse: string -> Option<Json>)
    ensures var t := st.buffer + a;
            var u := Pending(t, '\n') + b;
            Feed(st, a + b, parse)
            == ApplyLines(st, Complete(t, '\n') + Complete(u, '\n'), parse).(buffer := Pending(u, '\n'))
  {
    var t := st.buffer + a;
    ConcatAssoc(st.buffer, a, b);
    CompleteAppend(t, b, '\n');
    FeedAsLines(st, a + b, parse);
  }

  /** Which buffer the line loop starts from only shows in the buffer. */
  lemma {:induction false} ApplyLinesBufferIrrelevant(st: DecodeState, buf: string, lines: seq<string>, parse: string -> Option<Json>)
    ensures ApplyLines(st.(buffer := buf), lines, parse) == ApplyLines(st, lines, parse).(buffer := buf)
  {
    if lines != [] {
      ApplyLinesBufferIrrelevant(st, buf, lines[..|lines| - 1], parse);
    }
  }

  /** Splitting a read in two changes nothing as long as the first part
   *  does not finish the stream. */
  lemma ChunkingIndependent(st: DecodeState, a: string, b: string, rest: seq<string>, parse: string -> Option<Json>)
    requires !st.finished && !Feed(st, a, parse).finished
    ensures DecodeFrom(st, [a, b] + rest, parse) == DecodeFrom(st, [a + b] + rest, parse)
  {
    FeedAppend(st, a, b, parse);
    assert ([a, b] + rest)[1..] == [b] + rest;
    assert ([b] + rest)[1..] == rest;
    assert ([a + b] + rest)[1..] == rest;
  }

  /** After a read that finishes the stream nothing more is read. */
  lemma FinishedStops(st: DecodeState, c: string, rest: seq<string>, parse: string -> Option<Json>)
    requires !st.finished && Feed(st, c, parse).finished
    ensures DecodeFrom(st, [c] + rest, parse) == Feed(st, c, parse)
  {
    assert ([c] + rest)[1..] == rest;
  }

  /** Once set, `finished` stays set. */
  lemma {:induction false} FinishedSticks(st: DecodeState, lines: seq<string>, parse: string -> Option<Json>)
    requires st.finished
    ensures ApplyLines(st, lines, parse).finished
  {
    if lines != [] {
      FinishedSticks(st, lines[..|lines| - 1], parse);
    }
  }

  /** The text a line contributes. */
  function LineText(line: string, parse: string -> Option<Json>): string {
    match DataPayload(line)
    case None => []
    case Some(payload) =>
      match parse(payload)
      case None => []
      case Some(chunk) => if chunk.JNull? then [] else DeltaText(chunk)
  }

  /** The texts of the lines, front to back. */
  function Texts(lines: seq<string>, parse: string -> Option<Json>): string {
    if lines == [] then [] else LineText(lines[0], parse) + Texts(lines[1..], parse)
  }

  lemma {:induction false} TextsSnoc(lines: seq<string>, parse: string -> Option<Json>)
    requires lines != []
    ensures Texts(lines, parse) == Texts(lines[..|lines| - 1], parse) + LineText(lines[|lines| - 1], parse)
  {
    if |lines| > 1 {
      TextsSnoc(lines[1..], parse);
      assert lines[1..][..|lines[1..]| - 1] == lines[..|lines| - 1][1..];
    } else {
      assert lines[..0] == [];
    }
  }

  lemma ApplyLineText(st: DecodeState, line: string, parse: string -> Option<Json>)
    ensures ApplyLine(st, line, parse).text == st.text + LineText(line, parse)
  {
  }

  /** The text is the in-order concatenation of the lines' delta contents. */
  lemma {:induction false} TextIsConcatenation(st: DecodeState, lines: seq<string>, parse: string -> Option<Json>)
    ensures ApplyLines(st, lines, parse).text == st.text + Texts(lines, parse)
    decreases |lines|
  {
    if lines != [] {
      var init := lines[..|lines| - 1];
      var last := lines[|lines| - 1];
      var mid := ApplyLines(st, init, parse);
      TextIsConcatenation(st, init, parse);
      TextsSnoc(lines, parse);
      ApplyLineText(mid, last, parse);
      assert ApplyLines(st, lines, parse) == ApplyLine(mid, last, parse);
      var a, b := Texts(init, parse), LineText(last, parse);
      assert (st.text + a) + b == st.text + (a + b);
    }
  }

  /** The parsed chunk of a line, `JNull` when there is none. */
  function ChunkOf(line: string, parse: string -> Option<Json>): Json {
    match DataPayload(line)
    case None => JNull
    case Some(payload) => match parse(payload) case None => JNull case Some(chunk) => chunk
  }

  lemma ApplyLineFields(st: DecodeState, line: string, parse: string -> Option<Json>)
    ensures var created := Get(ChunkOf(line, parse), "response.created");
            ApplyLine(st, line, parse).responseId == (if Truthy(created) then Get(created, "response_id") else st.responseId)
    ensures var usage := Get(ChunkOf(line, parse), "usage");
            ApplyLine(st, line, parse).usage == (if Truthy(usage) then usage else st.usage)
  {
  }

  /** The id kept is the `response_id` of the last chunk that announced
   *  `response.created`. */
  lemma {:induction false} LastCreatedWins(st: DecodeState, lines: seq<string>, parse: string -> Option<Json>, k: nat)
    requires k < |lines| && Truthy(Get(ChunkOf(lines[k], parse), "response.created"))
    requires forall j :: k < j < |lines| ==> !Truthy(Get(ChunkOf(lines[j], parse), "response.created"))
    ensures ApplyLines(st, lines, parse).responseId == Get(Get(ChunkOf(lines[k], parse), "response.created"), "response_id")
    decreases |lines|
  {
    var init := lines[..|lines| - 1];
    ApplyLineFields(ApplyLines(st, init, parse), lines[|lines| - 1], parse);
    if k < |lines| - 1 {
      LastCreatedWins(st, init, parse, k);
    }
  }

  /** Without any such chunk the id stays what it was. */
  lemma {:induction false} NoCreatedKeepsId(st: DecodeState, lines: seq<string>, parse: string -> Option<Json>)
    requires forall j :: 0 <= j < |lines| ==> !Truthy(Get(ChunkOf(lines[j], parse), "response.created"))
    ensures ApplyLines(st, lines, parse).responseId == st.responseId
    decreases |lines|
  {
    if lines != [] {
      NoCreatedKeepsId(st, lines[..|lines| - 1], parse);
      ApplyLineFields(ApplyLines(st, lines[..|lines| - 1], parse), lines[|lines| - 1], parse);
    }
  }

  /** The usage kept is the last truthy `usage` record. */
  lemma {:induction false} LastUsageWins(st: DecodeState, lines: seq<string>, parse: string -> Option<Json>, k: nat)
    requires k < |lines| && Truthy(Get(ChunkOf(lines[k], parse), "usage"))
    requires forall j :: k < j < |lines| ==> !Truthy(Get(ChunkOf(lines[j], parse), "usage"))
    ensures ApplyLines(st, lines, parse).usage == Get(ChunkOf(lines[k], parse), "usage")
    decreases |lines|
  {
    var init := lines[..|lines| - 1];
    ApplyLineFields(ApplyLines(st, init, parse), lines[|lines| - 1], parse);
    if k < |lines| - 1 {
      LastUsageWins(st, init, parse, k);
    }
  }

  /** Lines that are not `data: ` lines, or whose payload does not parse
   *  (the `[DONE]` sentinel among them), change nothing. */
  lemma {:induction false} UnparsedLinesIgnored(st: DecodeState, lines: seq<string>, parse: string -> Option<Json>)
    requires forall k :: 0 <= k < |lines| ==> DataPayload(lines[k]).None? || parse(DataPayload(lines[k]).value).None?
    ensures ApplyLines(st, lines, parse) == st
  {
    if lines != [] {
      UnparsedLinesIgnored(st, lines[..|lines| - 1], parse);
    }
  }

  /** A line between good ones that fails to parse leaves the rest intact. */
  lemma SkippedLine(st: DecodeState, a: seq<string>, bad: string, b: seq<string>, parse: string -> Option<Json>)
    requires DataPayload(bad).None? || parse(DataPayload(bad).value).None?
    ensures ApplyLines(st, a + [bad] + b, parse) == ApplyLines(st, a + b, parse)
  {
    ApplyLinesAppend(st, a + [bad], b, parse);
    ApplyLinesAppend(st, a, b, parse);
    assert (a + [bad])[..|a + [bad]| - 1] == a;
  }

  // ---------------------------------------------------------------------
  // Worked examples, with `A` and `B` standing for two JSON chunks
  // ---------------------------------------------------------------------

  function ContentChunk(text: string, finished: bool): Json {
    var delta := if finished then map["content" := JStr(text), "status" := JStr("finished")]
                 else map["content" := JStr(text)];
    JObj(map["choices" := JArr([JObj(map["delta" := JObj(delta)])])])
  }

  function ExampleParse(s: string): Option<Json> {
    if s == "A" then Some(ContentChunk("Hel", false))
    else if s == "B" then Some(ContentChunk("lo", true))
    else None
  }

  /** A `data: ` line whose remainder carries no blank at either end. */
  lemma PayloadOf(line: string, payload: string)
    requires line == "data: " + payload && payload != []
    requires !IsSpace(payload[0]) && !IsSpace(payload[|payload| - 1])
    ensures DataPayload(line) == Some(payload)
  {
    assert line[6..] == payload;
    assert LeadingBlanks(payload) == 0;
    assert KeptLength(payload) == |payload|;
    assert Trim(payload) == payload;
    assert LeadingBlanks(line) == 0;
    assert line[|line| - 1] == payload[|payload| - 1];
    assert KeptLength(line) == |line|;
    assert Trim(line) == line;
    assert line[..6] == "data: ";
  }

  /** Reading one complete line from an empty buffer. */
  lemma FeedOneLine(st: DecodeState, line: string, parse: string -> Option<Json>)
    requires st.buffer == [] && '\n' !in line
    ensures Feed(st, line + "\n", parse) == ApplyLine(st, line, parse)
  {
    SplitLine(line, '\n');
    assert st.buffer + (line + "\n") == line + ['\n'];
    assert ApplyLines(st.(buffer := []), [line], parse) == ApplyLine(st.(buffer := []), line, parse);
    assert st.(buffer := []) == st;
  }

  /** What the two example lines do: `A` appends "Hel", `B` appends "lo"
   *  and finishes. */
  lemma LineA(st: DecodeState)
    ensures ApplyLine(st, "data: A", ExampleParse) == st.(text := st.text + "Hel")
  {
    PayloadOf("data: A", "A");
    assert ExampleParse("A") == Some(ContentChunk("Hel", false));
    ApplyContentChunk(st, "Hel", false);
  }

  lemma LineB(st: DecodeState)
    ensures ApplyLine(st, "data: B", ExampleParse) == st.(text := st.text + "lo", finished := true)
  {
    PayloadOf("data: B", "B");
    assert ExampleParse("B") == Some(ContentChunk("lo", true));
    ApplyContentChunk(st, "lo", true);
  }

  /** A chunk carrying only content appends it, and finishes when it says
   *  so. */
  lemma ApplyContentChunk(st: DecodeState, text: string, finished: bool)
    requires text != []
    ensures ApplyChunk(st, ContentChunk(text, finished))
         == st.(text := st.text + text, finished := st.finished || finished)
  {
    var c := ContentChunk(text, finished);
    ContentChunkFields(text, finished);
    assert DeltaText(c) == text;
  }

  lemma ContentChunkFields(text: string, finished: bool)
    ensures var c := ContentChunk(text, finished);
            && Get(c, "response.created") == JNull && Get(c, "usage") == JNull
            && Delta(c).JObj? && Get(Delta(c), "content") == JStr(text)
            && (Get(Delta(c), "status") == JStr("finished") <==> finished)
  {
    var c := ContentChunk(text, finished);
    var delta := if finished then map["content" := JStr(text), "status" := JStr("finished")]
                 else map["content" := JStr(text)];
    assert "response.created" !in c.fields && "usage" !in c.fields;
    assert First(Get(c, "choices")) == JObj(map["delta" := JObj(delta)]);
    assert Delta(c) == JObj(delta);
    assert !finished ==> "status" !in delta;
  }

  /** Reading `[x, y] + later` when `y` is the read that finishes. */
  lemma TwoReads(st: DecodeState, x: string, y: string, later: seq<string>, parse: string -> Option<Json>)
    requires !st.finished && !Feed(st, x, parse).finished && Feed(Feed(st, x, parse), y, parse).finished
    ensures DecodeFrom(st, [x, y] + later, parse) == Feed(Feed(st, x, parse), y, parse)
  {
    var cs := [x, y] + later;
    assert cs[0] == x && cs[1..] == [y] + later;
    FinishedStops(Feed(st, x, parse), y, later, parse);
  }

  /** Reading each example line from an empty buffer. */
  lemma ReadA(st: DecodeState)
    requires st.buffer == []
    ensures Feed(st, "data: A\n", ExampleParse) == st.(text := st.text + "Hel")
  {
    ExampleTexts();
    FeedOneLine(st, "data: A", ExampleParse);
    LineA(st);
  }

  lemma ReadB(st: DecodeState)
    requires st.buffer == []
    ensures Feed(st, "data: B\n", ExampleParse) == st.(text := st.text + "lo", finished := true)
  {
    ExampleTexts();
    FeedOneLine(st, "data: B", ExampleParse);
    LineB(st);
  }

  /** The example texts, spelled out. */
  lemma ExampleTexts()
    ensures "data: A" + "\n" == "data: A\n" && "data: B" + "\n" == "data: B\n"
    ensures "data: B\n" + "data: A\n" == "data: B\ndata: A\n"
    ensures '\n' !in "data: A" && '\n' !in "data: B"
  {
  }

  /** "Hel" followed by a finishing "lo" decodes to "Hello", and a chunk
   *  arriving after the finishing one is never read. */
  lemma HelloExample(later: seq<string>)
    ensures DecodeFrom(Start, ["data: A\n", "data: B\n"] + later, ExampleParse).text == "Hello"
  {
    var s1 := Start.(text := "Hel");
    ReadA(Start);
    assert Start.text + "Hel" == "Hel";
    ReadB(s1);
    assert s1.text + "lo" == "Hello";
    TwoReads(Start, "data: A\n", "data: B\n", later, ExampleParse);
  }

  /** A line still waiting for its '\n' when the body ends is never
   *  parsed: the decoded text is empty. */
  lemma TrailingLineDropped()
    ensures DecodeFrom(Start, ["data: A"], ExampleParse).text == []
  {
    ExampleTexts();
    CompleteNoSeparator("data: A", '\n');
    assert Start.buffer + "data: A" == "data: A";
    var s1 := Feed(Start, "data: A", ExampleParse);
    assert s1 == Start.(buffer := "data: A");
    assert ["data: A"][1..] == [];
  }

  /** Two reads where the first finishes, against one read of both. */
  lemma TwoReadsJoined(st: DecodeState, x: string, y: string, parse: string -> Option<Json>)
    requires !st.finished && Feed(st, x, parse).finished
    ensures DecodeFrom(st, [x, y], parse) == Feed(st, x, parse)
    ensures DecodeFrom(st, [x + y], parse) == Feed(Feed(st, x, parse), y, parse)
  {
    FinishedStops(st, x, [y], parse);
    assert [x] + [y] == [x, y];
    FeedAppend(st, x, y, parse);
    assert [x + y][1..] == [];
    FinishedSticksFeed(Feed(st, x, parse), y, parse);
  }

  lemma FinishedSticksFeed(st: DecodeState, c: string, parse: string -> Option<Json>)
    requires st.finished
    ensures Feed(st, c, parse).finished
  {
    var text := st.buffer + c;
    FinishedSticks(st.(buffer := Pending(text, '\n')), Complete(text, '\n'), parse);
  }

  /** Splitting after a finishing line is not harmless: the one-read
   *  stream also takes in the line that follows, the two-read stream does
   *  not. */
  lemma FinishedSplitDiffers()
    ensures DecodeFrom(Start, ["data: B\n", "data: A\n"], ExampleParse).text == "lo"
    ensures DecodeFrom(Start, ["data: B\ndata: A\n"], ExampleParse).text == "loHel"
  {
    var s1 := Start.(text := "lo", finished := true);
    ExampleTexts();
    ReadB(Start);
    ReadA(s1);
    TwoReadsJoined(Start, "data: B\n", "data: A\n", ExampleParse);
  }
}
