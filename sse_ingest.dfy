/**
 * How the widget reads the streamed reply to `POST /messages`
 * (frontend/src/components/chat-widget.tsx, the loop of `handleSendMessage`):
 * each decoded chunk is split on `'\n'`, lines beginning with `data: ` carry a
 * JSON payload, and the parsed fragments grow one assistant message.
 */
module StreamIngest {
  import opened Common
  import opened Text
  import opened ChatMessages

  /** The two fields the widget reads from a parsed payload (`data.id`, `data.content`). */
  datatype Fragment = Fragment(id: string, content: string)

  /**
   * `JSON.parse(payload)` followed by reading `id` and `content`; `None` when
   * either step throws. The JSON grammar itself is not modelled.
   */
  type Parser = string -> Option<Fragment>

  const DataPrefix: string := "data: "

  /**
   * The fragment one line contributes: a line starting with `data: ` has its
   * first five characters dropped and the rest trimmed; an empty payload, or
   * one that does not parse, contributes nothing.
   */
  function LineFragment(parse: Parser, line: string): (r: Option<Fragment>)
    ensures r.Some? ==> StartsWith(line, DataPrefix) && Trim(line[5..]) != [] && parse(Trim(line[5..])) == r
    ensures StartsWith(line, DataPrefix) && Trim(line[5..]) != [] ==> r == parse(Trim(line[5..]))
  {
    if StartsWith(line, DataPrefix) then
      var payload := Trim(line[5..]);
      if payload == [] then None else parse(payload)
    else None
  }

  /** The fragments of a list of lines, in order. */
  function LinesFragments(parse: Parser, lines: seq<string>): seq<Fragment> {
    if lines == [] then []
    else
      var init := LinesFragments(parse, lines[..|lines| - 1]);
      match LineFragment(parse, lines[|lines| - 1])
      case None => init
      case Some(f) => init + [f]
  }

  /** The fragments of one chunk: its lines are taken on their own, whatever came before. */
  function ChunkFragments(parse: Parser, chunk: string): seq<Fragment> {
    LinesFragments(parse, Split(chunk))
  }

  /** The fragments of a whole response body, chunk by chunk. */
  function StreamFragments(parse: Parser, chunks: seq<string>): seq<Fragment> {
    if chunks == [] then []
    else StreamFragments(parse, chunks[..|chunks| - 1]) + ChunkFragments(parse, chunks[|chunks| - 1])
  }

  /** The concatenated `content` of fragments, in order. */
  function Contents(fs: seq<Fragment>): string {
    if fs == [] then [] else Contents(fs[..|fs| - 1]) + fs[|fs| - 1].content
  }

  /**
   * The loop's state: the message list, `botMessageId` (the empty string stands
   * for `null`; both are falsy at line 136) and `botMessageContent`.
   */
  datatype Reader = Reader(messages: seq<Message>, botId: string, botContent: string)

  /** The state before the first chunk. */
  function Start(ms: seq<Message>): Reader {
    Reader(ms, [], [])
  }

  /**
   * One parsed fragment: while no bot id is known, the fragment's id becomes it
   * and an empty assistant message with that id is appended; then the
   * fragment's content is added to the running text and every message with the
   * bot id gets that text.
   */
  function Absorb(st: Reader, f: Fragment): Reader {
    var st1 :=
      if st.botId == [] then Reader(st.messages + [Message(f.id, Assistant, [], false)], f.id, st.botContent)
      else st;
    var text := st1.botContent + f.content;
    Reader(SetContent(st1.messages, st1.botId, text), st1.botId, text)
  }

  /** Fragments absorbed one after another. */
  function AbsorbAll(st: Reader, fs: seq<Fragment>): Reader {
    if fs == [] then st else Absorb(AbsorbAll(st, fs[..|fs| - 1]), fs[|fs| - 1])
  }

  /** The inner `for` loop's body: one line. */
  function ReadLine(parse: Parser, st: Reader, line: string): Reader {
    match LineFragment(parse, line)
    case None => st
    case Some(f) => Absorb(st, f)
  }

  /** The inner loop: the lines of one chunk, in order. */
  function ReadLines(parse: Parser, st: Reader, lines: seq<string>): Reader {
    if lines == [] then st else ReadLine(parse, ReadLines(parse, st, lines[..|lines| - 1]), lines[|lines| - 1])
  }

  /** The outer loop: every chunk, each split on `'\n'` by itself. */
  function ReadChunks(parse: Parser, st: Reader, chunks: seq<string>): Reader {
    if chunks == [] then st
    else ReadLines(parse, ReadChunks(parse, st, chunks[..|chunks| - 1]), Split(chunks[|chunks| - 1]))
  }

  /** Absorbing two runs of fragments is absorbing their concatenation. */
  lemma {:induction false} AbsorbAllAppend(st: Reader, a: seq<Fragment>, b: seq<Fragment>)
    ensures AbsorbAll(st, a + b) == AbsorbAll(AbsorbAll(st, a), b)
  {
    if b == [] {
      assert a + b == a;
    } else {
      AbsorbAllAppend(st, a, b[..|b| - 1]);
      assert (a + b)[..|a + b| - 1] == a + b[..|b| - 1];
    }
  }

  /** Reading lines is absorbing exactly the fragments those lines carry. */
  lemma {:induction false} ReadLinesAbsorbs(parse: Parser, st: Reader, lines: seq<string>)
    ensures ReadLines(parse, st, lines) == AbsorbAll(st, LinesFragments(parse, lines))
  {
    if lines != [] {
      var init := lines[..|lines| - 1];
      ReadLinesAbsorbs(parse, st, init);
      match LineFragment(parse, lines[|lines| - 1])
      case None =>
      case Some(f) =>
        var fs := LinesFragments(parse, init);
        assert (fs + [f])[..|fs + [f]| - 1] == fs;
    }
  }

  /**
   * Reading a whole body is absorbing its fragments: a payload that is empty or
   * does not parse is skipped and every later line and chunk is still read.
   */
  lemma {:induction false} ReadChunksAbsorbs(parse: Parser, st: Reader, chunks: seq<string>)
    ensures ReadChunks(parse, st, chunks) == AbsorbAll(st, StreamFragments(parse, chunks))
  {
    if chunks != [] {
      var init := chunks[..|chunks| - 1];
      ReadChunksAbsorbs(parse, st, init);
      ReadLinesAbsorbs(parse, ReadChunks(parse, st, init), Split(chunks[|chunks| - 1]));
      AbsorbAllAppend(st, StreamFragments(parse, init), ChunkFragments(parse, chunks[|chunks| - 1]));
    }
  }

  /** The fragments of concatenated lines are the concatenated fragments. */
  lemma {:induction false} LinesFragmentsAppend(parse: Parser, a: seq<string>, b: seq<string>)
    ensures LinesFragments(parse, a + b) == LinesFragments(parse, a) + LinesFragments(parse, b)
  {
    if b == [] {
      assert a + b == a;
    } else {
      var init := b[..|b| - 1];
      var last := b[|b| - 1];
      assert (a + b)[..|a + b| - 1] == a + init;
      assert (a + b)[|a + b| - 1] == last;
      var tail := match LineFragment(parse, last) case None => [] case Some(f) => [f];
      calc {
        LinesFragments(parse, a + b);
        LinesFragments(parse, a + init) + tail;
        { LinesFragmentsAppend(parse, a, init); }
        LinesFragments(parse, a) + LinesFragments(parse, init) + tail;
        LinesFragments(parse, a) + (LinesFragments(parse, init) + tail);
      }
    }
  }

  /** A line that yields no fragment (malformed, empty, or not a `data: ` line) is simply skipped. */
  lemma SkippedLineDropsOut(parse: Parser, a: seq<string>, line: string, b: seq<string>)
    requires LineFragment(parse, line) == None
    ensures LinesFragments(parse, a + [line] + b) == LinesFragments(parse, a) + LinesFragments(parse, b)
  {
    LinesFragmentsAppend(parse, a + [line], b);
    assert (a + [line])[..|a + [line]| - 1] == a;
  }

  /**
   * The central property of the merge: starting from list `ms`, absorbing a
   * non-empty run of fragments whose first id is non-empty and new to `ms`
   * appends exactly one assistant message, with the first fragment's id and the
   * in-order concatenation of all contents; later ids are ignored and no
   * earlier message changes.
   */
  lemma {:induction false} AbsorbAllMerges(ms: seq<Message>, fs: seq<Fragment>)
    requires fs != [] && fs[0].id != [] && fs[0].id !in Ids(ms)
    ensures AbsorbAll(Start(ms), fs)
         == Reader(ms + [Message(fs[0].id, Assistant, Contents(fs), false)], fs[0].id, Contents(fs))
  {
    var m := Message(fs[0].id, Assistant, [], false);
    if |fs| == 1 {
      assert fs[..0] == [];
      SetContentOfFreshLast(ms, m, fs[0].content);
    } else {
      var init := fs[..|fs| - 1];
      assert init[0] == fs[0];
      AbsorbAllMerges(ms, init);
      SetContentOfFreshLast(ms, m.(content := Contents(init)), Contents(fs));
    }
  }

  /** A body without fragments leaves the list as it was. */
  lemma NoFragmentsNoChange(parse: Parser, ms: seq<Message>, chunks: seq<string>)
    requires StreamFragments(parse, chunks) == []
    ensures ReadChunks(parse, Start(ms), chunks) == Start(ms)
  {
    ReadChunksAbsorbs(parse, Start(ms), chunks);
  }

  /** A `data: ` line whose payload, after the leading space, has no surrounding whitespace. */
  lemma DataLineFragment(parse: Parser, payload: string)
    requires |payload| > 0 && !IsWhitespace(payload[0]) && !IsWhitespace(payload[|payload| - 1])
    ensures LineFragment(parse, DataPrefix + payload) == parse(payload)
  {
    var line := DataPrefix + payload;
    assert line[..6] == DataPrefix;
    assert line[5..] == [' '] + payload;
    TrimAfterSpace(payload);
  }

  /** The fragments of a single line. */
  lemma OneLineFragments(parse: Parser, line: string)
    ensures LinesFragments(parse, [line]) == match LineFragment(parse, line) case None => [] case Some(f) => [f]
  {
    assert [line][..0] == [];
  }

  /** A one-line chunk that is not a `data: ` line carries nothing. */
  lemma PlainChunkFragments(parse: Parser, chunk: string)
    requires '\n' !in chunk && !StartsWith(chunk, DataPrefix)
    ensures ChunkFragments(parse, chunk) == []
  {
    SplitNoNewline(chunk);
    OneLineFragments(parse, chunk);
  }

  /** The fragments of a body of one chunk, and of two. */
  lemma FewChunksFragments(parse: Parser, a: string, b: string)
    ensures StreamFragments(parse, [a]) == ChunkFragments(parse, a)
    ensures StreamFragments(parse, [a, b]) == ChunkFragments(parse, a) + ChunkFragments(parse, b)
  {
    assert [a][..0] == [];
    assert [a, b][..1] == [a];
  }

  /**
   * Each chunk is split by itself, so a `data: ` line whose prefix is cut by a
   * chunk boundary is lost, whatever its (newline-free) payload, while the same
   * line inside one chunk yields its fragment when the payload has no
   * whitespace at either end.
   */
  lemma StraddlingLineIsLost(parse: Parser, payload: string, k: int)
    requires '\n' !in payload && 0 < k < |DataPrefix|
    ensures var line := DataPrefix + payload;
      StreamFragments(parse, [line[..k], line[k..]]) == []
    ensures |payload| > 0 && !IsWhitespace(payload[0]) && !IsWhitespace(payload[|payload| - 1]) ==>
      StreamFragments(parse, [DataPrefix + payload]) == match parse(payload) case None => [] case Some(f) => [f]
  {
    var line := DataPrefix + payload;
    var cut := [line[..k], line[k..]];
    DataLineNoNewline(payload);
    assert '\n' !in cut[0] && '\n' !in cut[1] by {
      forall c | c in cut[0] ensures c != '\n' { assert c in line; }
      forall c | c in cut[1] ensures c != '\n' { assert c in line; }
    }
    assert !StartsWith(cut[1], DataPrefix) by {
      assert DataPrefix == ['d', 'a', 't', 'a', ':', ' '];
      assert cut[1][0] == DataPrefix[k] != 'd';
    }
    PlainChunkFragments(parse, cut[0]);
    PlainChunkFragments(parse, cut[1]);
    FewChunksFragments(parse, cut[0], cut[1]);
    if |payload| > 0 && !IsWhitespace(payload[0]) && !IsWhitespace(payload[|payload| - 1]) {
      FewChunksFragments(parse, line, line);
      SplitNoNewline(line);
      DataLineFragment(parse, payload);
      OneLineFragments(parse, line);
    }
  }

  /** `data: ` in front of a newline-free string adds no newline. */
  lemma DataLineNoNewline(p: string)
    requires '\n' !in p
    ensures '\n' !in DataPrefix + p
  {
    var line := DataPrefix + p;
    assert forall i :: 0 <= i < |DataPrefix| ==> DataPrefix[i] != '\n';
    forall i | 0 <= i < |line| ensures line[i] != '\n' {
      if i >= |DataPrefix| { assert line[i] == p[i - |DataPrefix|]; }
    }
  }

  /** A `data: ` line whose payload is blank or does not parse yields no fragment. */
  lemma UnparsedLineFragment(parse: Parser, p: string)
    requires Trim(p) == [] || parse(Trim(p)) == None
    ensures LineFragment(parse, DataPrefix + p) == None
  {
    var line := DataPrefix + p;
    assert line[..|DataPrefix|] == DataPrefix;
    assert line[5..] == [' '] + p;
    TrimLeadingSpace(p);
  }

  /** A one-line chunk holding `data: ` and a payload that is blank or does not parse carries nothing. */
  lemma UnparsedChunkFragments(parse: Parser, p: string)
    requires '\n' !in p && (Trim(p) == [] || parse(Trim(p)) == None)
    ensures ChunkFragments(parse, DataPrefix + p) == []
  {
    DataLineNoNewline(p);
    UnparsedLineFragment(parse, p);
    SplitNoNewline(DataPrefix + p);
    OneLineFragments(parse, DataPrefix + p);
  }

  /**
   * A cut right after `data: ` or inside the payload loses the line too, as
   * long as the truncated payload does not parse (`JSON.parse` rejects a
   * truncated object; a cut right after the prefix leaves no payload at all)
   * and the rest of the line is not a `data: ` line of its own.
   */
  lemma TruncatedPayloadIsLost(parse: Parser, payload: string, j: int)
    requires '\n' !in payload && 0 <= j < |payload|
    requires 0 < j ==> parse(Trim(payload[..j])) == None
    requires !StartsWith(payload[j..], DataPrefix)
    ensures var line := DataPrefix + payload;
      StreamFragments(parse, [line[..|DataPrefix| + j], line[|DataPrefix| + j..]]) == []
  {
    var line := DataPrefix + payload;
    var head, tail := payload[..j], payload[j..];
    assert line[..|DataPrefix| + j] == DataPrefix + head && line[|DataPrefix| + j..] == tail;
    assert '\n' !in head && '\n' !in tail by {
      forall c | c in head ensures c != '\n' { assert c in payload; }
      forall c | c in tail ensures c != '\n' { assert c in payload; }
    }
    UnparsedChunkFragments(parse, head);
    PlainChunkFragments(parse, tail);
    FewChunksFragments(parse, DataPrefix + head, tail);
  }
}
