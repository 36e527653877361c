/**
 * The streamed reply end to end: the frames `event_generator` writes
 * (backend/app/services/message_service.py) read by the widget's stream loop
 * (frontend/src/components/chat-widget.tsx). As long as the body is cut into
 * chunks only between frames, the widget ends with one assistant message whose
 * text is exactly what `save_bot_message` stores.
 */
module ReplyStream {
  import opened Common
  import opened Text
  import opened ChatMessages
  import opened MessageService
  import opened StreamIngest
  import ChatWidget

  /** A JSON text as `json.dumps` writes it: one line, not empty, no whitespace at either end. */
  predicate OneLinePayload(e: string) {
    '\n' !in e && |e| > 0 && !IsWhitespace(e[0]) && !IsWhitespace(e[|e| - 1])
  }

  /**
   * What each end requires of the other's JSON: every encoded event is a
   * one-line payload that the widget parses back to its id and content.
   */
  ghost predicate CodecAgrees(encode: Encoder, parse: Parser) {
    forall ev: Event :: OneLinePayload(encode(ev)) && parse(encode(ev)) == Some(Fragment(ev.id, ev.content))
  }

  /** The frames `event_generator` yields for the tokens. */
  function Frames(encode: Encoder, botId: string, tokens: seq<string>): seq<string> {
    seq(|tokens|, i requires 0 <= i < |tokens| => EventFrame(encode, botId, tokens[i]))
  }

  /** The fragments the widget should see: one per token, all with the bot id. */
  function TokenFragments(botId: string, tokens: seq<string>): seq<Fragment> {
    seq(|tokens|, i requires 0 <= i < |tokens| => Fragment(botId, tokens[i]))
  }

  /** Groups of tokens, one after another. */
  function Flatten(groups: seq<seq<string>>): seq<string> {
    if groups == [] then [] else Flatten(groups[..|groups| - 1]) + groups[|groups| - 1]
  }

  /** A body delivered in chunks that each hold the frames of one group of tokens. */
  function GroupedBody(encode: Encoder, botId: string, groups: seq<seq<string>>): seq<string> {
    seq(|groups|, j requires 0 <= j < |groups| => Concat(Frames(encode, botId, groups[j])))
  }

  /** The fragments' texts concatenated are the tokens concatenated. */
  lemma {:induction false} TokenFragmentsContents(botId: string, tokens: seq<string>)
    ensures Contents(TokenFragments(botId, tokens)) == Concat(tokens)
  {
    if tokens != [] {
      var n := |tokens|;
      assert TokenFragments(botId, tokens)[..n - 1] == TokenFragments(botId, tokens[..n - 1]);
      TokenFragmentsContents(botId, tokens[..n - 1]);
    }
  }

  /** Concatenating a first piece and the rest. */
  lemma ConcatCons(first: string, rest: seq<string>)
    ensures Concat([first] + rest) == first + Concat(rest)
  {
    ConcatAppend([first], rest);
    assert [first][..0] == [];
  }

  /** The data line of a frame and the blank line after it give exactly the token's fragment. */
  lemma FrameLineFragments(encode: Encoder, parse: Parser, botId: string, token: string)
    requires CodecAgrees(encode, parse)
    ensures LinesFragments(parse, [DataPrefix + encode(Event(botId, token, Assistant)), []]) == [Fragment(botId, token)]
  {
    var e := encode(Event(botId, token, Assistant));
    assert OneLinePayload(e) && parse(e) == Some(Fragment(botId, token));
    var line := DataPrefix + e;
    DataLineFragment(parse, e);
    assert LineFragment(parse, []) == None;
    OneLineFragments(parse, line);
    assert [line, []][..1] == [line];
  }

  /**
   * A frame followed by anything splits into its data line, the blank line,
   * and the split of what follows.
   */
  lemma FrameSplit(encode: Encoder, parse: Parser, botId: string, token: string, rest: string)
    requires CodecAgrees(encode, parse)
    ensures Split(EventFrame(encode, botId, token) + rest)
         == [DataPrefix + encode(Event(botId, token, Assistant)), []] + Split(rest)
  {
    var e := encode(Event(botId, token, Assistant));
    assert OneLinePayload(e);
    var line := DataPrefix + e;
    assert '\n' !in line by {
      forall i | 0 <= i < |line| ensures line[i] != '\n' {
        if i >= |DataPrefix| {
          assert line[i] == e[i - |DataPrefix|];
        }
      }
    }
    assert EventFrame(encode, botId, token) + rest == line + ['\n'] + (['\n'] + rest);
    SplitFirstLine(line, ['\n'] + rest);
    assert [] + ['\n'] + rest == ['\n'] + rest;
    SplitFirstLine([], rest);
  }

  /** A frame followed by a chunk of frames: one fragment, then the chunk's fragments. */
  lemma FrameThenChunk(encode: Encoder, parse: Parser, botId: string, token: string, rest: string)
    requires CodecAgrees(encode, parse)
    ensures ChunkFragments(parse, EventFrame(encode, botId, token) + rest)
         == [Fragment(botId, token)] + ChunkFragments(parse, rest)
  {
    FrameSplit(encode, parse, botId, token, rest);
    var line := DataPrefix + encode(Event(botId, token, Assistant));
    LinesFragmentsAppend(parse, [line, []], Split(rest));
    FrameLineFragments(encode, parse, botId, token);
  }

  /** The body of frames for tokens that start with `t`: `t`'s frame, then the rest. */
  lemma FramesCons(encode: Encoder, botId: string, tokens: seq<string>)
    requires tokens != []
    ensures Concat(Frames(encode, botId, tokens))
         == EventFrame(encode, botId, tokens[0]) + Concat(Frames(encode, botId, tokens[1..]))
    ensures TokenFragments(botId, tokens) == [Fragment(botId, tokens[0])] + TokenFragments(botId, tokens[1..])
  {
    assert Frames(encode, botId, tokens) == [EventFrame(encode, botId, tokens[0])] + Frames(encode, botId, tokens[1..]);
    ConcatCons(EventFrame(encode, botId, tokens[0]), Frames(encode, botId, tokens[1..]));
  }

  /** An empty chunk yields no fragment. */
  lemma EmptyChunkFragments(parse: Parser)
    ensures ChunkFragments(parse, []) == []
  {
    var blank: seq<string> := [[]];
    assert Split([]) == blank && blank[..0] == [];
  }

  /** The fragments of one chunk holding the frames of the tokens, in order. */
  lemma {:induction false} ChunkOfFrames(encode: Encoder, parse: Parser, botId: string, tokens: seq<string>)
    requires CodecAgrees(encode, parse)
    ensures ChunkFragments(parse, Concat(Frames(encode, botId, tokens))) == TokenFragments(botId, tokens)
  {
    if tokens == [] {
      assert Frames(encode, botId, tokens) == [];
      EmptyChunkFragments(parse);
    } else {
      FramesCons(encode, botId, tokens);
      FrameThenChunk(encode, parse, botId, tokens[0], Concat(Frames(encode, botId, tokens[1..])));
      ChunkOfFrames(encode, parse, botId, tokens[1..]);
    }
  }

  /** The expected fragments of two runs of tokens. */
  lemma TokenFragmentsAppend(botId: string, a: seq<string>, b: seq<string>)
    ensures TokenFragments(botId, a + b) == TokenFragments(botId, a) + TokenFragments(botId, b)
  {
  }

  /**
   * Whatever the grouping of frames into chunks, the widget sees one fragment
   * per token, in order, all carrying the bot id.
   */
  lemma {:induction false} GroupedBodyFragments(encode: Encoder, parse: Parser, botId: string, groups: seq<seq<string>>)
    requires CodecAgrees(encode, parse)
    ensures StreamFragments(parse, GroupedBody(encode, botId, groups)) == TokenFragments(botId, Flatten(groups))
  {
    if groups != [] {
      var n := |groups|;
      var body := GroupedBody(encode, botId, groups);
      var init := groups[..n - 1];
      var last := groups[n - 1];
      assert body[..n - 1] == GroupedBody(encode, botId, init);
      assert body[n - 1] == Concat(Frames(encode, botId, last));
      calc {
        StreamFragments(parse, body);
        StreamFragments(parse, body[..n - 1]) + ChunkFragments(parse, body[n - 1]);
        { GroupedBodyFragments(encode, parse, botId, init);
          ChunkOfFrames(encode, parse, botId, last); }
        TokenFragments(botId, Flatten(init)) + TokenFragments(botId, last);
        { TokenFragmentsAppend(botId, Flatten(init), last); }
        TokenFragments(botId, Flatten(init) + last);
      }
    }
  }

  /** A frame in a chunk of its own yields its token's fragment. */
  lemma SingleFrameChunk(encode: Encoder, parse: Parser, botId: string, token: string)
    requires CodecAgrees(encode, parse)
    ensures ChunkFragments(parse, EventFrame(encode, botId, token)) == [Fragment(botId, token)]
  {
    FrameThenChunk(encode, parse, botId, token, []);
    assert EventFrame(encode, botId, token) + [] == EventFrame(encode, botId, token);
    EmptyChunkFragments(parse);
  }

  /** Each token in a group of its own. */
  function Singletons(tokens: seq<string>): seq<seq<string>> {
    seq(|tokens|, i requires 0 <= i < |tokens| => [tokens[i]])
  }

  /** Flattening singleton groups gives back the tokens. */
  lemma {:induction false} FlattenSingletons(tokens: seq<string>)
    ensures Flatten(Singletons(tokens)) == tokens
  {
    if tokens != [] {
      var n := |tokens|;
      assert Singletons(tokens)[..n - 1] == Singletons(tokens[..n - 1]);
      FlattenSingletons(tokens[..n - 1]);
      assert tokens[..n - 1] + [tokens[n - 1]] == tokens;
    }
  }

  /** A body with each token's group a chunk of its own is the list of frames. */
  lemma SingletonBody(encode: Encoder, botId: string, tokens: seq<string>)
    ensures GroupedBody(encode, botId, Singletons(tokens)) == Frames(encode, botId, tokens)
  {
    forall i | 0 <= i < |tokens|
      ensures GroupedBody(encode, botId, Singletons(tokens))[i] == Frames(encode, botId, tokens)[i]
    {
      var frame := EventFrame(encode, botId, tokens[i]);
      assert Frames(encode, botId, [tokens[i]]) == [frame];
      ConcatCons(frame, []);
      assert frame + [] == frame;
    }
  }

  /** Each frame in a chunk of its own: one fragment per token. */
  lemma FramesAsChunks(encode: Encoder, parse: Parser, botId: string, tokens: seq<string>)
    requires CodecAgrees(encode, parse)
    ensures StreamFragments(parse, Frames(encode, botId, tokens)) == TokenFragments(botId, tokens)
  {
    SingletonBody(encode, botId, tokens);
    FlattenSingletons(tokens);
    GroupedBodyFragments(encode, parse, botId, Singletons(tokens));
  }

  /** The whole body in a single chunk: one fragment per token. */
  lemma WholeBodyFragments(encode: Encoder, parse: Parser, botId: string, tokens: seq<string>)
    requires CodecAgrees(encode, parse)
    ensures StreamFragments(parse, [Concat(Frames(encode, botId, tokens))]) == TokenFragments(botId, tokens)
  {
    FewChunksFragments(parse, Concat(Frames(encode, botId, tokens)), []);
    ChunkOfFrames(encode, parse, botId, tokens);
  }

  /**
   * The reply end to end: a fresh, non-empty bot id and at least one token,
   * chunked between frames. The widget appends exactly one assistant message,
   * under the bot id, whose text is the tokens concatenated (the content
   * `create_user_message` saves for the bot row), then the apology if the
   * reader throws afterwards.
   */
  lemma StreamedReplyMatchesSavedRow(encode: Encoder, parse: Parser, pending: seq<Message>, errorId: string,
                                     status: int, botId: string, groups: seq<seq<string>>, broken: bool)
    requires CodecAgrees(encode, parse)
    requires IsOkStatus(status)
    requires botId != [] && botId !in Ids(pending) && Flatten(groups) != []
    ensures var body := ChatWidget.Body(GroupedBody(encode, botId, groups), broken);
      var reply := Message(botId, Assistant, Concat(Flatten(groups)), false);
      ChatWidget.AfterSend(pending, errorId, ChatWidget.Response(status, body), parse)
        == if broken then pending + [reply, ChatWidget.Apology(errorId)] else pending + [reply]
  {
    var body := ChatWidget.Body(GroupedBody(encode, botId, groups), broken);
    GroupedBodyFragments(encode, parse, botId, groups);
    TokenFragmentsContents(botId, Flatten(groups));
    ChatWidget.SendStreamMerges(pending, errorId, status, body, parse);
  }
}
