/** The newline-framed stream decoder (adapters/codexAppServer.ts). */
module LineDecoder {
  import opened Prelude

  const NEWLINE: char := '\n'

  function IndexOfNewline(s: string): (i: Option<nat>)
    ensures i.Some? ==> i.value < |s| && s[i.value] == NEWLINE && NEWLINE !in s[..i.value]
    ensures i.None? ==> NEWLINE !in s
    decreases |s|
  {
    if s == "" then None
    else if s[0] == NEWLINE then Some(0)
    else
      var rest := IndexOfNewline(s[1..]);
      assert s == [s[0]] + s[1..];
      if rest.None? then None
      else
        assert s[..rest.value + 1] == [s[0]] + s[1..][..rest.value];
        Some(rest.value + 1)
  }

  /** The complete lines of a text. */
  function Lines(s: string): seq<string>
    decreases |s|
  {
    var i := IndexOfNewline(s);
    if i.None? then [] else [s[..i.value]] + Lines(s[i.value + 1..])
  }

  /** The text after the last newline. */
  function Rest(s: string): string
    decreases |s|
  {
    var i := IndexOfNewline(s);
    if i.None? then s else Rest(s[i.value + 1..])
  }

  // ----- lines and rest are the unique framing --------------------------------------------------------

  function Unlines(lines: seq<string>): string {
    if lines == [] then "" else lines[0] + [NEWLINE] + Unlines(lines[1..])
  }

  predicate NoNewlines(lines: seq<string>) {
    forall i :: 0 <= i < |lines| ==> NEWLINE !in lines[i]
  }

  /** Nothing is lost: the lines and the rest give the text back. */
  lemma {:induction false} LinesAndRestAreTheText(s: string)
    ensures Unlines(Lines(s)) + Rest(s) == s
    ensures NoNewlines(Lines(s)) && NEWLINE !in Rest(s)
    decreases |s|
  {
    hide IndexOfNewline, Lines, Rest;
    var i := IndexOfNewline(s);
    if i.None? {
      NoLines(s);
    } else {
      FirstLine(s, i.value);
      SplitAtNewline(s, i.value);
      var line, tail := s[..i.value], s[i.value + 1..];
      LinesAndRestAreTheText(tail);
      assert ([line] + Lines(tail))[1..] == Lines(tail);
      assert line + [NEWLINE] + (Unlines(Lines(tail)) + Rest(tail)) == line + [NEWLINE] + Unlines(Lines(tail)) + Rest(tail);
    }
  }

  lemma {:induction false} NewlineAfter(line: string, s: string)
    requires NEWLINE !in line
    ensures IndexOfNewline(line + [NEWLINE] + s) == Some(|line|)
    decreases |line|
  {
    var t := line + [NEWLINE] + s;
    if line != "" {
      NewlineAfter(line[1..], s);
      assert t[1..] == line[1..] + [NEWLINE] + s;
    }
  }

  /** A line in front of a text is the first line of the result. */
  lemma LineInFront(line: string, s: string)
    requires NEWLINE !in line
    ensures Lines(line + [NEWLINE] + s) == [line] + Lines(s) && Rest(line + [NEWLINE] + s) == Rest(s)
  {
    hide IndexOfNewline;
    var t := line + [NEWLINE] + s;
    NewlineAfter(line, s);
    assert t[..|line|] == line && t[|line| + 1..] == s;
  }

  lemma SplitAtNewline(s: string, i: nat)
    requires i < |s| && s[i] == NEWLINE
    ensures s == s[..i] + [NEWLINE] + s[i + 1..]
  {
  }

  /** A text with a newline splits at its first one. */
  lemma FirstLine(s: string, i: nat)
    requires IndexOfNewline(s) == Some(i)
    ensures i < |s| && s[i] == NEWLINE && NEWLINE !in s[..i]
    ensures Lines(s) == [s[..i]] + Lines(s[i + 1..])
    ensures Rest(s) == Rest(s[i + 1..])
  {
    hide IndexOfNewline;
  }

  lemma NoLines(rest: string)
    requires NEWLINE !in rest
    ensures Lines(rest) == [] && Rest(rest) == rest
  {
  }

  /** Any framing of a text into newline-free lines and a newline-free rest is this one. */
  lemma {:induction false} FramingIsUnique(lines: seq<string>, rest: string)
    requires NoNewlines(lines) && NEWLINE !in rest
    ensures Lines(Unlines(lines) + rest) == lines && Rest(Unlines(lines) + rest) == rest
    decreases |lines|
  {
    if lines == [] {
      assert Unlines(lines) + rest == rest;
      NoLines(rest);
    } else {
      FramingIsUnique(lines[1..], rest);
      LineInFront(lines[0], Unlines(lines[1..]) + rest);
      assert Unlines(lines) + rest == lines[0] + [NEWLINE] + (Unlines(lines[1..]) + rest);
    }
  }

  // ----- frames ----------------------------------------------------------------------------------------

  /** How a line becomes a frame: trimming and JSON parsing; anything but an object gives none. */
  datatype Codec<!F> = Codec(trim: string -> string, parse: string -> Option<F>)

  function Frame<F>(c: Codec<F>, line: string): seq<F> {
    var text := c.trim(line);
    if text == "" then [] else match c.parse(text) case None => [] case Some(f) => [f]
  }

  /** A line gives one frame, what its trimmed text parses to, and none when it is empty or does not parse. */
  lemma LineGives<F>(c: Codec<F>, line: string)
    ensures Frame(c, line) == [] <==> c.trim(line) == "" || c.parse(c.trim(line)) == None
    ensures Frame(c, line) != [] ==> |Frame(c, line)| == 1 && c.parse(c.trim(line)) == Some(Frame(c, line)[0])
  {
  }

  function Frames<F>(c: Codec<F>, lines: seq<string>): seq<F>
    decreases |lines|
  {
    if lines == [] then [] else Frame(c, lines[0]) + Frames(c, lines[1..])
  }

  lemma FirstFrame<F>(c: Codec<F>, line: string, lines: seq<string>)
    ensures Frames(c, [line] + lines) == Frame(c, line) + Frames(c, lines)
  {
    hide Frame;
    assert ([line] + lines)[1..] == lines;
  }

  lemma {:induction false} FramesAppend<F>(c: Codec<F>, a: seq<string>, b: seq<string>)
    ensures Frames(c, a + b) == Frames(c, a) + Frames(c, b)
    decreases |a|
  {
    if a == [] {
      assert a + b == b;
    } else {
      assert (a + b)[1..] == a[1..] + b;
      FramesAppend(c, a[1..], b);
    }
  }

  // ----- pushing ---------------------------------------------------------------------------------------

  class JsonLineDecoder<!F> {
    var buffer: string
    const codec: Codec<F>

    constructor (codec: Codec<F>)
      ensures buffer == "" && this.codec == codec
    {
      buffer, this.codec := "", codec;
    }

    /** One complete line: trimmed, and parsed unless it is empty. */
    method DecodeLine(line: string) returns (frames: seq<F>)
      ensures frames == Frame(codec, line)
    {
      frames := [];
      var trimmed := codec.trim(line);
      if trimmed != "" {
        var parsed := codec.parse(trimmed);
        if parsed.Some? { frames := [parsed.value]; }
      }
    }

    /** Append a chunk and consume the lines it completes. */
    method Push(chunk: string) returns (frames: seq<F>)
      modifies this`buffer
      ensures frames == Frames(codec, Lines(old(buffer) + chunk)) && buffer == Rest(old(buffer) + chunk)
    {
      hide IndexOfNewline, Lines, Rest, Frames, Frame;
      ghost var text := buffer + chunk;
      buffer := buffer + chunk;
      frames := [];
      var newline := IndexOfNewline(buffer);
      while newline.Some?
        invariant newline == IndexOfNewline(buffer)
        invariant frames + Frames(codec, Lines(buffer)) == Frames(codec, Lines(text)) && Rest(buffer) == Rest(text)
        decreases |buffer|
      {
        var i := newline.value;
        FirstLine(buffer, i);
        FirstFrame(codec, buffer[..i], Lines(buffer[i + 1..]));
        var more := DecodeLine(buffer[..i]);
        buffer := buffer[i + 1..];
        newline := IndexOfNewline(buffer);
        assert frames + (more + Frames(codec, Lines(buffer))) == (frames + more) + Frames(codec, Lines(buffer));
        frames := frames + more;
      }
      NoLines(buffer);
      NoFrames(codec);
    }
  }

  lemma NoFrames<F>(c: Codec<F>)
    ensures Frames(c, []) == []
  {
  }

  /** What consecutive pushes return, and the buffer they leave. */
  function PushAll<F>(c: Codec<F>, buffer: string, chunks: seq<string>): (seq<F>, string)
    decreases |chunks|
  {
    if chunks == [] then ([], buffer)
    else
      var text := buffer + chunks[0];
      var (later, left) := PushAll(c, Rest(text), chunks[1..]);
      (Frames(c, Lines(text)) + later, left)
  }

  function Concat(chunks: seq<string>): string
    decreases |chunks|
  {
    if chunks == [] then "" else chunks[0] + Concat(chunks[1..])
  }

  /** Decoding may stop anywhere and go on from the rest. */
  lemma {:induction false} DecodeInTwoSteps(a: string, b: string)
    ensures Lines(a + b) == Lines(a) + Lines(Rest(a) + b)
    ensures Rest(a + b) == Rest(Rest(a) + b)
    decreases |a|
  {
    hide IndexOfNewline, Lines, Rest;
    var i := IndexOfNewline(a);
    if i.None? {
      NoLines(a);
      assert [] + Lines(a + b) == Lines(a + b);
    } else {
      FirstLine(a, i.value);
      SplitAtNewline(a, i.value);
      var line, tail := a[..i.value], a[i.value + 1..];
      DecodeInTwoSteps(tail, b);
      LineInFront(line, tail + b);
      assert a + b == line + [NEWLINE] + (tail + b);
    }
  }

  lemma {:induction false} PushesAreOnePush<F>(c: Codec<F>, buffer: string, chunks: seq<string>)
    requires NEWLINE !in buffer
    ensures PushAll(c, buffer, chunks) == (Frames(c, Lines(buffer + Concat(chunks))), Rest(buffer + Concat(chunks)))
    decreases |chunks|
  {
    hide IndexOfNewline, Lines, Rest, Frames;
    if chunks == [] {
      assert buffer + "" == buffer;
      NoLines(buffer);
      NoFrames(c);
    } else {
      var text, tail := buffer + chunks[0], Concat(chunks[1..]);
      LinesAndRestAreTheText(text);
      PushesAreOnePush(c, Rest(text), chunks[1..]);
      DecodeInTwoSteps(text, tail);
      FramesAppend(c, Lines(text), Lines(Rest(text) + tail));
      assert buffer + Concat(chunks) == text + tail;
    }
  }

  /** Chunking does not matter: any split of a stream gives the frames of the whole, and leaves the text after its last newline. */
  lemma ChunkingDoesNotMatter<F>(c: Codec<F>, chunks: seq<string>)
    ensures PushAll(c, "", chunks) == (Frames(c, Lines(Concat(chunks))), Rest(Concat(chunks)))
    ensures NEWLINE !in PushAll(c, "", chunks).1
  {
    hide IndexOfNewline, Lines, Rest;
    PushesAreOnePush(c, "", chunks);
    assert "" + Concat(chunks) == Concat(chunks);
    LinesAndRestAreTheText(Concat(chunks));
  }
}
