/** The incremental framer of the event stream: however the text is cut into chunks, the
    frames are those of the whole text, one for each block of lines that carries data. */
module SseFrames {
  import opened Wrappers
  import opened Seqs
  import Codec
  import Utf8

  datatype Frame = Frame(data: string, id: Option<string>)

  /** The data lines and the id gathered since the last blank line. */
  datatype Block = Block(data: seq<string>, id: Option<string>)

  datatype Progress = Progress(rest: string, block: Block, frames: seq<Frame>)

  const EMPTY := Block([], None)

  function TrimEnd(s: string): string {
    if s != "" && (s[|s| - 1] == '\r' || s[|s| - 1] == '\n') then TrimEnd(s[..|s| - 1]) else s
  }

  function JoinLines(lines: seq<string>): string {
    if lines == [] then ""
    else if |lines| == 1 then lines[0]
    else lines[0] + "\n" + JoinLines(lines[1..])
  }

  /** Where the first newline is. */
  function Newline(s: string): (r: Option<nat>)
    ensures r.Some? ==> r.value < |s| && s[r.value] == '\n' && '\n' !in s[..r.value]
    ensures r.None? ==> '\n' !in s
  {
    if s == "" then None
    else if s[0] == '\n' then Some(0)
    else
      match Newline(s[1..])
      case None => None
      case Some(i) =>
        assert s[..i + 1] == [s[0]] + s[1..][..i];
        Some(i + 1)
  }

  /** The block after one more line; a blank line starts a new one. */
  function After(trimStart: string -> string, b: Block, line: string): Block {
    if line == "" then EMPTY
    else if "data:" <= line then b.(data := b.data + [trimStart(line[5..])])
    else if "id:" <= line then b.(id := Some(trimStart(line[3..])))
    else b
  }

  /** The frame a blank line completes. */
  function Emitted(b: Block, line: string): seq<Frame> {
    if line == "" && b.data != [] then [Frame(JoinLines(b.data), b.id)] else []
  }

  function Emit(frames: seq<Frame>, p: Progress): Progress {
    p.(frames := frames + p.frames)
  }

  function FirstLine(text: string, i: nat): string
    requires i < |text|
  {
    TrimEnd(text[..i + 1])
  }

  /** Reads the complete lines of `text`; what follows the last newline is left. */
  function Read(trimStart: string -> string, text: string, b: Block): Progress
    decreases |text|
  {
    match Newline(text)
    case None => Progress(text, b, [])
    case Some(i) =>
      var line := FirstLine(text, i);
      Emit(Emitted(b, line), Read(trimStart, text[i + 1..], After(trimStart, b, line)))
  }

  // ----- chunks do not matter -----

  lemma {:induction false} NewlineExtends(x: string, y: string)
    requires Newline(x).Some?
    ensures Newline(x + y) == Newline(x)
  {
    if x[0] != '\n' {
      assert (x + y)[1..] == x[1..] + y;
      NewlineExtends(x[1..], y);
    }
  }

  lemma EmitTwice(x: seq<Frame>, y: seq<Frame>, p: Progress)
    ensures Emit(x, Emit(y, p)) == Emit(x + y, p)
  {
    assert x + (y + p.frames) == x + y + p.frames;
  }

  lemma EmitNothing(p: Progress)
    ensures Emit([], p) == p
  {
  }

  /** Reading on from where reading stopped is reading the whole. */
  lemma {:induction false} ReadThenRead(trimStart: string -> string, x: string, y: string, b: Block)
    ensures var p := Read(trimStart, x, b);
      Read(trimStart, x + y, b) == Emit(p.frames, Read(trimStart, p.rest + y, p.block))
    decreases |x|
  {
    hide Newline, TrimEnd, After, Emitted, Emit, FirstLine;
    match Newline(x)
    case None =>
      EmitNothing(Read(trimStart, x + y, b));
    case Some(i) =>
      ReadOneMore(trimStart, x, y, b, i);
      var line := FirstLine(x, i);
      var p := Read(trimStart, x[i + 1..], After(trimStart, b, line));
      hide Read;
      ReadThenRead(trimStart, x[i + 1..], y, After(trimStart, b, line));
      EmitTwice(Emitted(b, line), p.frames, Read(trimStart, p.rest + y, p.block));
      EmitParts(Emitted(b, line), p);
  }

  lemma EmitParts(x: seq<Frame>, p: Progress)
    ensures Emit(x, p).rest == p.rest && Emit(x, p).block == p.block && Emit(x, p).frames == x + p.frames
  {
  }

  lemma ReadOneMore(trimStart: string -> string, x: string, y: string, b: Block, i: nat)
    requires Newline(x) == Some(i)
    ensures var line := FirstLine(x, i);
      && Read(trimStart, x, b) == Emit(Emitted(b, line), Read(trimStart, x[i + 1..], After(trimStart, b, line)))
      && Read(trimStart, x + y, b) == Emit(Emitted(b, line), Read(trimStart, x[i + 1..] + y, After(trimStart, b, line)))
  {
    NewlineExtends(x, y);
    assert (x + y)[..i + 1] == x[..i + 1] && (x + y)[i + 1..] == x[i + 1..] + y;
    hide Newline, TrimEnd, After, Emitted, Emit;
  }

  /** Feeding chunk after chunk, each to what the one before left. */
  function FeedAll(trimStart: string -> string, chunks: seq<string>, p: Progress): Progress
    decreases |chunks|
  {
    if chunks == [] then p
    else
      var q := Read(trimStart, p.rest + chunks[0], p.block);
      FeedAll(trimStart, chunks[1..], Emit(p.frames, q))
  }

  /** Nothing is left unread but an incomplete line. */
  lemma {:induction false} RestIsPartial(trimStart: string -> string, text: string, b: Block)
    ensures var p := Read(trimStart, text, b);
      && '\n' !in p.rest
      && Read(trimStart, p.rest, p.block) == Progress(p.rest, p.block, [])
    decreases |text|
  {
    hide TrimEnd, After, Emitted;
    if Newline(text).Some? {
      var i := Newline(text).value;
      RestIsPartial(trimStart, text[i + 1..], After(trimStart, b, FirstLine(text, i)));
    }
  }

  lemma {:induction false} FeedFrom(trimStart: string -> string, chunks: seq<string>, text: string, b: Block)
    ensures FeedAll(trimStart, chunks, Read(trimStart, text, b)) == Read(trimStart, text + Concat(chunks), b)
    decreases |chunks|
  {
    hide Read;
    if chunks == [] {
      assert text + Concat(chunks) == text;
    } else {
      ReadThenRead(trimStart, text, chunks[0], b);
      FeedFrom(trimStart, chunks[1..], text + chunks[0], b);
      assert text + Concat(chunks) == text + chunks[0] + Concat(chunks[1..]);
    }
  }

  /** Any cutting of the stream gives the frames of the whole stream. */
  lemma ChunksDoNotMatter(trimStart: string -> string, chunks: seq<string>)
    ensures FeedAll(trimStart, chunks, Progress("", EMPTY, [])) == Read(trimStart, Concat(chunks), EMPTY)
  {
    FeedFrom(trimStart, chunks, "", EMPTY);
    assert "" + Concat(chunks) == Concat(chunks);
  }

  // ----- what the frames are -----

  /** The complete lines, without their ends. */
  function Lines(text: string): seq<string>
    decreases |text|
  {
    match Newline(text)
    case None => []
    case Some(i) => [FirstLine(text, i)] + Lines(text[i + 1..])
  }

  /** The lines before each blank line; those after the last one are not a block yet. */
  function Blocks(lines: seq<string>, open: seq<string>): seq<seq<string>>
    decreases |lines|
  {
    if lines == [] then []
    else if lines[0] == "" then [open] + Blocks(lines[1..], [])
    else Blocks(lines[1..], open + [lines[0]])
  }

  /** The values of the block's data lines. */
  function DataOf(trimStart: string -> string, lines: seq<string>): seq<string> {
    if lines == [] then []
    else DataLine(trimStart, lines[0]) + DataOf(trimStart, lines[1..])
  }

  /** The value of its last id line. */
  function IdOf(trimStart: string -> string, lines: seq<string>): Option<string> {
    if lines == [] then None
    else
      var n := |lines| - 1;
      if "id:" <= lines[n] && !("data:" <= lines[n]) then Some(trimStart(lines[n][3..]))
          else IdOf(trimStart, lines[..n])
  }

  function FrameOf(trimStart: string -> string, lines: seq<string>): seq<Frame> {
    var data := DataOf(trimStart, lines);
    if data == [] then [] else [Frame(JoinLines(data), IdOf(trimStart, lines))]
  }

  function FramesOf(trimStart: string -> string, blocks: seq<seq<string>>): seq<Frame> {
    if blocks == [] then [] else FrameOf(trimStart, blocks[0]) + FramesOf(trimStart, blocks[1..])
  }

  function DataLine(trimStart: string -> string, line: string): seq<string> {
    if "data:" <= line then [trimStart(line[5..])] else []
  }

  lemma {:induction false} DataAppend(trimStart: string -> string, lines: seq<string>, line: string)
    ensures DataOf(trimStart, lines + [line]) == DataOf(trimStart, lines) + DataLine(trimStart, line)
  {
    hide DataLine;
    if lines == [] {
      assert [line][1..] == [] && [] + [line] == [line];
    } else {
      assert (lines + [line])[1..] == lines[1..] + [line];
      DataAppend(trimStart, lines[1..], line);
    }
  }

  /** The block that the lines since the last blank one make. */
  function BlockOf(trimStart: string -> string, lines: seq<string>): Block {
    Block(DataOf(trimStart, lines), IdOf(trimStart, lines))
  }

  lemma BlockGrows(trimStart: string -> string, open: seq<string>, line: string)
    requires line != ""
    ensures After(trimStart, BlockOf(trimStart, open), line) == BlockOf(trimStart, open + [line])
  {
    DataAppend(trimStart, open, line);
    assert (open + [line])[..|open|] == open;
    hide DataOf;
  }

  lemma BlockEnds(trimStart: string -> string, open: seq<string>, tail: seq<seq<string>>)
    ensures FramesOf(trimStart, [open] + tail) == Emitted(BlockOf(trimStart, open), "") + FramesOf(trimStart, tail)
  {
    assert ([open] + tail)[1..] == tail;
    hide DataOf, IdOf, JoinLines;
  }

  lemma {:induction false} ReadsBlocks(trimStart: string -> string, text: string, open: seq<string>)
    ensures Read(trimStart, text, BlockOf(trimStart, open)).frames == FramesOf(trimStart, Blocks(Lines(text), open))
    decreases |text|
  {
    hide Newline, FirstLine, After, Emitted, BlockOf, FramesOf;
    match Newline(text)
    case None =>
      NoFrames(trimStart);
    case Some(i) =>
      var line, rest := FirstLine(text, i), Lines(text[i + 1..]);
      assert Lines(text)[0] == line && Lines(text)[1..] == rest;
      var b := BlockOf(trimStart, open);
      if line == "" {
        BlockEnds(trimStart, open, Blocks(rest, []));
        NoLines(trimStart, b);
        ReadsBlocks(trimStart, text[i + 1..], []);
      } else {
        BlockGrows(trimStart, open, line);
        OpenEmitsNothing(b, line);
        ReadsBlocks(trimStart, text[i + 1..], open + [line]);
      }
  }

  lemma NoFrames(trimStart: string -> string)
    ensures FramesOf(trimStart, []) == []
  {
  }

  lemma NoLines(trimStart: string -> string, b: Block)
    ensures BlockOf(trimStart, []) == EMPTY == After(trimStart, b, "")
  {
  }

  lemma OpenEmitsNothing(b: Block, line: string)
    requires line != ""
    ensures Emitted(b, line) == []
  {
  }

  /** Every frame is one block's: its data lines joined, with its own last id; an id of a
      block without data goes nowhere. */
  lemma FramesAreBlocks(trimStart: string -> string, text: string)
    ensures Read(trimStart, text, EMPTY).frames == FramesOf(trimStart, Blocks(Lines(text), []))
  {
    NoLines(trimStart, EMPTY);
    ReadsBlocks(trimStart, text, []);
  }

  // ----- the buffer -----

  class SseFrameBuffer {
    const trimStart: string -> string
    var buf: string
    var curData: seq<string>
    var curId: Option<string>

    constructor (trimStart: string -> string)
      ensures this.trimStart == trimStart && buf == "" && Open() == EMPTY
    {
      this.trimStart := trimStart;
      buf, curData, curId := "", [], None;
    }

    function Open(): Block
      reads this
    {
      Block(curData, curId)
    }

    /** Appends a chunk and returns the frames it completes. */
    method FeedChunk(chunk: string) returns (out: seq<Frame>)
      modifies this
      ensures Progress(buf, Open(), out) == Read(trimStart, old(buf) + chunk, old(Open()))
      ensures '\n' !in buf
    {
      hide Newline, After, Emitted, Emit, FirstLine, JoinLines;
      RestIsPartial(trimStart, buf + chunk, Open());
      buf := buf + chunk;
      out := [];
      ghost var whole := Read(trimStart, buf, Open());
      EmitNothing(whole);
      var idx := Newline(buf);
      while idx.Some?
        invariant idx == Newline(buf)
        invariant whole == Emit(out, Read(trimStart, buf, Open()))
        decreases |buf|
      {
        var line := FirstLine(buf, idx.value);
        EmitTwice(out, Emitted(Open(), line), Read(trimStart, buf[idx.value + 1..], After(trimStart, Open(), line)));
        buf := buf[idx.value + 1..];
        var completed := TakeLine(line);
        out := out + completed;
        idx := Newline(buf);
      }
      EmitParts(out, Progress(buf, Open(), []));
    }

    /** One line: a field of the block, or the blank line that ends it. */
    method TakeLine(line: string) returns (completed: seq<Frame>)
      modifies this`curData, this`curId
      ensures Open() == After(trimStart, old(Open()), line) && completed == Emitted(old(Open()), line)
    {
      completed := [];
      if line == "" {
        if curData != [] {
          completed := [Frame(JoinLines(curData), curId)];
          curData, curId := [], None;
        } else {
          curId := None;
        }
      } else if "data:" <= line {
        curData := curData + [trimStart(line[5..])];
      } else if "id:" <= line {
        curId := Some(trimStart(line[3..]));
      }
    }
  }

  /** One connection: every chunk of bytes is decoded on its own and fed to the same buffer.
      Where every cut is between two characters of a valid stream, the frames are those of the
      stream. */
  method FrameStream(trimStart: string -> string, chunks: seq<seq<Codec.Byte>>) returns (out: seq<Frame>)
    ensures out == StreamFrames(trimStart, Utf8.LossyAll(chunks))
    ensures Utf8.Valid(Concat(chunks)) && Utf8.CutsOnCharacters(chunks) ==>
      out == StreamFrames(trimStart, Utf8.Lossy(Concat(chunks)))
  {
    hide Read, Concat, Utf8.Lossy, Utf8.Valid, Utf8.CutsOnCharacters;
    var frames := new SseFrameBuffer(trimStart);
    out := [];
    ghost var texts := Decoded(chunks);
    for i := 0 to |chunks|
      invariant frames.trimStart == trimStart
      invariant FeedAll(trimStart, texts[i..], Progress(frames.buf, frames.Open(), out))
             == FeedAll(trimStart, texts, Progress("", EMPTY, []))
    {
      assert texts[i..][0] == Utf8.Lossy(chunks[i]) && texts[i..][1..] == texts[i + 1..];
      var text := Utf8.DecodeLossy(chunks[i]);
      var completed := frames.FeedChunk(text);
      out := out + completed;
    }
    ChunksDoNotMatter(trimStart, texts);
    FramesAreBlocks(trimStart, Concat(texts));
    DecodedIsLossyAll(chunks);
    if Utf8.Valid(Concat(chunks)) {
      Utf8.DecodedByChunks(chunks);
    }
  }

  // ----- what a sender writes is what is read -----

  /** Cutting at newlines. */
  function Split(s: string): seq<string>
    decreases |s|
  {
    match Newline(s)
    case None => [s]
    case Some(i) => [s[..i]] + Split(s[i + 1..])
  }

  lemma {:induction false} NewlineAfter(line: string, rest: string)
    requires '\n' !in line
    ensures Newline(line + ("\n" + rest)) == Some(|line|)
  {
    if line == "" {
      assert line + ("\n" + rest) == "\n" + rest;
    } else {
      assert (line + ("\n" + rest))[1..] == line[1..] + ("\n" + rest);
      NewlineAfter(line[1..], rest);
    }
  }

  /** The data lines of a frame can be told apart again: they are what lies between its
      newlines. */
  lemma {:induction false} SplitJoined(lines: seq<string>)
    requires lines != [] && forall i :: 0 <= i < |lines| ==> '\n' !in lines[i]
    ensures Split(JoinLines(lines)) == lines
  {
    if |lines| > 1 {
      var joined, rest := JoinLines(lines), JoinLines(lines[1..]);
      assert joined == lines[0] + ("\n" + rest);
      NewlineAfter(lines[0], rest);
      assert joined[..|lines[0]|] == lines[0] && joined[|lines[0]| + 1..] == rest;
      SplitJoined(lines[1..]);
    }
  }

  /** A value that can be sent on one line and is read back as it is. */
  ghost predicate Sendable(trimStart: string -> string, v: string) {
    '\n' !in v && (v != "" ==> v[|v| - 1] != '\r') && trimStart(v) == v
  }

  ghost predicate SendableBlock(trimStart: string -> string, b: Block) {
    && b.data != [] && (forall i :: 0 <= i < |b.data| ==> Sendable(trimStart, b.data[i]))
    && (b.id.Some? ==> Sendable(trimStart, b.id.value))
  }

  function DataLines(data: seq<string>): seq<string> {
    if data == [] then [] else ["data:" + data[0]] + DataLines(data[1..])
  }

  function SentLines(b: Block): seq<string> {
    (if b.id.Some? then ["id:" + b.id.value] else []) + DataLines(b.data)
  }

  function Wire(lines: seq<string>, rest: string): string {
    if lines == [] then rest else lines[0] + ("\n" + Wire(lines[1..], rest))
  }

  /** The stream of the messages, each ended by a blank line. */
  function WireAll(messages: seq<Block>): string {
    if messages == [] then "" else Wire(SentLines(messages[0]) + [""], WireAll(messages[1..]))
  }

  function SentFrames(messages: seq<Block>): seq<Frame> {
    seq(|messages|, i requires 0 <= i < |messages| => Frame(JoinLines(messages[i].data), messages[i].id))
  }

  ghost predicate CleanLine(line: string) {
    '\n' !in line && (line != "" ==> line[|line| - 1] != '\r')
  }

  lemma LinesNext(line: string, rest: string)
    requires CleanLine(line)
    ensures Lines(line + ("\n" + rest)) == [line] + Lines(rest)
  {
    var text := line + ("\n" + rest);
    NewlineAfter(line, rest);
    assert text[..|line| + 1] == line + "\n" && text[|line| + 1..] == rest;
    EndTrimmed(line);
  }

  lemma EndTrimmed(line: string)
    requires CleanLine(line)
    ensures TrimEnd(line + "\n") == line
  {
    assert (line + "\n")[..|line|] == line;
    assert TrimEnd(line) == line;
  }

  lemma {:induction false} LinesOfWire(lines: seq<string>, rest: string)
    requires forall i :: 0 <= i < |lines| ==> CleanLine(lines[i])
    ensures Lines(Wire(lines, rest)) == lines + Lines(rest)
  {
    hide Lines, CleanLine;
    if lines == [] {
      assert [] + Lines(rest) == Lines(rest);
    } else {
      LinesNext(lines[0], Wire(lines[1..], rest));
      LinesOfWire(lines[1..], rest);
      assert [lines[0]] + (lines[1..] + Lines(rest)) == lines + Lines(rest);
    }
  }

  lemma {:induction false} BlocksNext(lines: seq<string>, open: seq<string>, rest: seq<string>)
    requires forall i :: 0 <= i < |lines| ==> lines[i] != ""
    ensures Blocks(lines + ([""] + rest), open) == [open + lines] + Blocks(rest, [])
  {
    var all := lines + ([""] + rest);
    if lines == [] {
      assert all[0] == "" && all[1..] == rest && open + lines == open;
    } else {
      assert all[0] == lines[0] && all[1..] == lines[1..] + ([""] + rest);
      BlocksNext(lines[1..], open + [lines[0]], rest);
      assert open + [lines[0]] + lines[1..] == open + lines;
    }
  }

  lemma {:induction false} DataLinesAre(trimStart: string -> string, data: seq<string>)
    requires forall i :: 0 <= i < |data| ==> Sendable(trimStart, data[i])
    ensures DataOf(trimStart, DataLines(data)) == data
    ensures forall i :: 0 <= i < |DataLines(data)| ==> CleanLine(DataLines(data)[i]) && "data:" <= DataLines(data)[i]
  {
    if data != [] {
      var line := "data:" + data[0];
      assert line[5..] == data[0] && "data:" <= line && CleanLine(line);
      DataLinesAre(trimStart, data[1..]);
      assert DataLines(data)[1..] == DataLines(data[1..]);
    }
  }

  lemma {:induction false} NoIdAfter(trimStart: string -> string, first: seq<string>, lines: seq<string>)
    requires forall i :: 0 <= i < |lines| ==> "data:" <= lines[i]
    ensures IdOf(trimStart, first + lines) == IdOf(trimStart, first)
  {
    if lines == [] {
      assert first + lines == first;
    } else {
      var n := |lines| - 1;
      assert (first + lines)[..|first| + n] == first + lines[..n];
      NoIdAfter(trimStart, first, lines[..n]);
    }
  }

  lemma SentBlock(trimStart: string -> string, b: Block)
    requires SendableBlock(trimStart, b)
    ensures FrameOf(trimStart, SentLines(b)) == [Frame(JoinLines(b.data), b.id)]
    ensures forall i :: 0 <= i < |SentLines(b)| ==> CleanLine(SentLines(b)[i]) && SentLines(b)[i] != ""
  {
    hide JoinLines, IdOf, DataOf, DataLines, Sendable;
    var lines := DataLines(b.data);
    DataLinesAre(trimStart, b.data);
    assert forall i :: 0 <= i < |lines| ==> "data:" <= lines[i] && lines[i] != "";
    if b.id.Some? {
      var line := "id:" + b.id.value;
      IdLine(trimStart, b.id.value);
      NoIdAfter(trimStart, [line], lines);
      DataAfterId(trimStart, line, lines);
    } else {
      NoIdAfter(trimStart, [], lines);
      NoIdInNothing(trimStart);
      assert [] + lines == lines;
    }
  }

  lemma IdLine(trimStart: string -> string, v: string)
    requires Sendable(trimStart, v)
    ensures CleanLine("id:" + v) && !("data:" <= "id:" + v) && IdOf(trimStart, ["id:" + v]) == Some(v)
  {
    var line := "id:" + v;
    assert line[3..] == v && "id:" <= line && line[0] == 'i';
  }

  lemma DataAfterId(trimStart: string -> string, line: string, lines: seq<string>)
    requires !("data:" <= line)
    ensures DataOf(trimStart, [line] + lines) == DataOf(trimStart, lines)
  {
    assert ([line] + lines)[1..] == lines;
  }

  lemma NoIdInNothing(trimStart: string -> string)
    ensures IdOf(trimStart, []) == None
  {
  }

  /** What a sender writes, one message after the other, is read as just those messages. */
  lemma {:induction false} SentIsRead(trimStart: string -> string, messages: seq<Block>)
    requires forall i :: 0 <= i < |messages| ==> SendableBlock(trimStart, messages[i])
    ensures StreamFrames(trimStart, WireAll(messages)) == SentFrames(messages)
  {
    hide SendableBlock, JoinLines, FrameOf, CleanLine, SentLines, Lines, Blocks, FramesOf;
    if messages == [] {
      NothingSent(trimStart);
    } else {
      var lines, rest := SentLines(messages[0]), WireAll(messages[1..]);
      SentBlock(trimStart, messages[0]);
      BlankIsClean();
      LinesOfWire(lines + [""], rest);
      assert lines + [""] + Lines(rest) == lines + ([""] + Lines(rest));
      BlocksNext(lines, [], Lines(rest));
      assert [] + lines == lines;
      FramesNext(trimStart, lines, Blocks(Lines(rest), []));
      SentIsRead(trimStart, messages[1..]);
    }
  }

  lemma BlankIsClean()
    ensures CleanLine("")
  {
  }

  lemma FramesNext(trimStart: string -> string, block: seq<string>, rest: seq<seq<string>>)
    ensures FramesOf(trimStart, [block] + rest) == FrameOf(trimStart, block) + FramesOf(trimStart, rest)
  {
    assert ([block] + rest)[1..] == rest;
    hide FrameOf;
  }

  lemma NothingSent(trimStart: string -> string)
    ensures FramesOf(trimStart, Blocks(Lines(""), [])) == []
  {
  }

  /** The frames of a whole text. */
  function StreamFrames(trimStart: string -> string, text: string): seq<Frame> {
    FramesOf(trimStart, Blocks(Lines(text), []))
  }

  function Decoded(chunks: seq<seq<Codec.Byte>>): (texts: seq<string>)
    ensures |texts| == |chunks| && forall i :: 0 <= i < |texts| ==> texts[i] == Utf8.Lossy(chunks[i])
  {
    seq(|chunks|, i requires 0 <= i < |chunks| => Utf8.Lossy(chunks[i]))
  }

  lemma {:induction false} DecodedIsLossyAll(chunks: seq<seq<Codec.Byte>>)
    ensures Concat(Decoded(chunks)) == Utf8.LossyAll(chunks)
  {
    if chunks != [] {
      hide Utf8.Lossy;
      assert Decoded(chunks)[1..] == Decoded(chunks[1..]);
      DecodedIsLossyAll(chunks[1..]);
    }
  }
}
