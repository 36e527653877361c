/**
 * The chat widget's state engine (`ChatWidget` of
 * frontend/src/components/chat-widget.tsx): the message list, the two input
 * buffers and the loading flag, and the handlers that change them. Network
 * replies, stream chunks and fresh ids are inputs; `navigate('/login')` is the
 * returned `SessionInvalid` signal.
 */
module ChatWidget {
  import opened Common
  import opened Text
  import opened ChatMessages
  import opened StreamIngest

  /** What a `fetch` call comes to: the promise rejects, or a response with a status and a body. */
  datatype Http<B> = NetworkError | Response(status: int, body: B)

  /**
   * A streamed body: the decoded chunks `reader.read()` delivers, and whether
   * the reader then throws instead of reporting `done`.
   */
  datatype Body = Body(chunks: seq<string>, broken: bool)

  /** What a handler leaves its caller with. */
  datatype Signal =
    | Settled         // ran to its end
    | Failed          // an error was caught and logged
    | SessionInvalid  // the handler navigated to the login page

  /** The body of the `POST /messages` request. */
  datatype CreateRequest = CreateRequest(id: string, content: string)

  /** The body of the `PUT /messages/{id}` request. */
  datatype UpdateRequest = UpdateRequest(id: string, content: string)

  /** The `DELETE /messages/{id}` request: the id in its path. */
  datatype DeleteRequest = DeleteRequest(id: string)

  /** The assistant message appended when sending fails. */
  function Apology(id: string): Message {
    Message(id, Assistant, ApologyText, false)
  }

  /** The list after `fetchAllMessages` with the given reply (`None` body: `response.json()` rejects). */
  function AfterLoad(ms: seq<Message>, reply: Http<Option<seq<BackendMessage>>>): seq<Message> {
    match reply
    case Response(status, Some(data)) => if IsOkStatus(status) then FromBackendList(data) else ms
    case _ => ms
  }

  function LoadSignal(reply: Http<Option<seq<BackendMessage>>>): Signal {
    match reply
    case NetworkError => Failed
    case Response(status, data) =>
      if status == 401 then SessionInvalid
      else if !IsOkStatus(status) || data.None? then Failed
      else Settled
  }

  /**
   * The list after the request of `handleSendMessage`, starting from the list
   * `pending` that already holds the optimistic user message.
   */
  function AfterSend(pending: seq<Message>, errorId: string, reply: Http<Body>, parse: Parser): seq<Message> {
    match reply
    case NetworkError => pending + [Apology(errorId)]
    case Response(status, body) =>
      if status == 401 then pending
      else if !IsOkStatus(status) then pending + [Apology(errorId)]
      else
        var read := ReadChunks(parse, Start(pending), body.chunks).messages;
        if body.broken then read + [Apology(errorId)] else read
  }

  function SendSignal(reply: Http<Body>): Signal {
    match reply
    case NetworkError => Failed
    case Response(status, body) =>
      if status == 401 then SessionInvalid
      else if !IsOkStatus(status) || body.broken then Failed
      else Settled
  }

  /** A successful load shows exactly the server list; every other reply keeps the list. */
  lemma LoadReplacesOrKeeps(ms: seq<Message>, reply: Http<Option<seq<BackendMessage>>>)
    ensures reply.Response? && IsOkStatus(reply.status) && reply.body.Some? ==>
      AfterLoad(ms, reply) == FromBackendList(reply.body.value) && LoadSignal(reply) == Settled
    ensures !(reply.Response? && IsOkStatus(reply.status) && reply.body.Some?) ==>
      AfterLoad(ms, reply) == ms && LoadSignal(reply) != Settled
    ensures LoadSignal(reply) == SessionInvalid <==> reply.Response? && reply.status == 401
  {
  }

  /**
   * Whatever the reply, the optimistic user message is kept: the list only
   * grows, and every earlier entry keeps its position, id, role and flag (a
   * stream may only rewrite the content of messages carrying the bot id).
   */
  lemma SendKeepsPending(pending: seq<Message>, errorId: string, reply: Http<Body>, parse: Parser)
    ensures KeepsEntries(pending, AfterSend(pending, errorId, reply, parse))
  {
    if reply.Response? && reply.status != 401 && IsOkStatus(reply.status) {
      ReadChunksAbsorbs(parse, Start(pending), reply.body.chunks);
      AbsorbAllKeepsEntries(Start(pending), StreamFragments(parse, reply.body.chunks));
    }
  }

  /** Absorbing fragments keeps the entries already in the list. */
  lemma {:induction false} AbsorbAllKeepsEntries(st: Reader, fs: seq<Fragment>)
    ensures KeepsEntries(st.messages, AbsorbAll(st, fs).messages)
  {
    if fs != [] {
      AbsorbAllKeepsEntries(st, fs[..|fs| - 1]);
    }
  }

  /** A 401 reply appends nothing after the optimistic message and signals an invalid session. */
  lemma SendUnauthorized(pending: seq<Message>, errorId: string, body: Body, parse: Parser)
    ensures AfterSend(pending, errorId, Response(401, body), parse) == pending
    ensures SendSignal(Response(401, body)) == SessionInvalid
  {
  }

  /**
   * A request that throws before the body is read (the fetch rejects, or the
   * status is neither OK nor 401) appends exactly one apology.
   */
  lemma SendRejectedApologises(pending: seq<Message>, errorId: string, reply: Http<Body>, parse: Parser)
    requires reply.NetworkError? || (reply.status != 401 && !IsOkStatus(reply.status))
    ensures AfterSend(pending, errorId, reply, parse) == pending + [Apology(errorId)]
    ensures SendSignal(reply) == Failed
  {
  }

  /**
   * A stream that arrives whole, with its first fragment carrying a new,
   * non-empty id, leaves the optimistic list plus exactly one assistant message
   * holding all fragment contents in order. If the reader then throws, exactly
   * one apology follows that message.
   */
  lemma SendStreamMerges(pending: seq<Message>, errorId: string, status: int, body: Body, parse: Parser)
    requires IsOkStatus(status)
    requires var fs := StreamFragments(parse, body.chunks); fs != [] && fs[0].id != [] && fs[0].id !in Ids(pending)
    ensures var fs := StreamFragments(parse, body.chunks);
      var reply := Message(fs[0].id, Assistant, Contents(fs), false);
      AfterSend(pending, errorId, Response(status, body), parse)
        == if body.broken then pending + [reply, Apology(errorId)] else pending + [reply]
  {
    var fs := StreamFragments(parse, body.chunks);
    ReadChunksAbsorbs(parse, Start(pending), body.chunks);
    AbsorbAllMerges(pending, fs);
  }

  /** An OK stream without a usable fragment appends nothing, or only the apology if it breaks. */
  lemma SendEmptyStream(pending: seq<Message>, errorId: string, status: int, body: Body, parse: Parser)
    requires IsOkStatus(status) && StreamFragments(parse, body.chunks) == []
    ensures AfterSend(pending, errorId, Response(status, body), parse)
         == if body.broken then pending + [Apology(errorId)] else pending
  {
    NoFragmentsNoChange(parse, pending, body.chunks);
  }

  /**
   * Sending keeps the ids of the list distinct when the fresh id of the user
   * message, the id of a possible apology and the bot id of the reply (a
   * non-empty first fragment id) are new and differ from each other.
   */
  lemma SendKeepsDistinctIds(ms: seq<Message>, freshId: string, content: string, errorId: string,
                             reply: Http<Body>, parse: Parser)
    requires DistinctIds(ms) && freshId !in Ids(ms) && errorId !in Ids(ms) && errorId != freshId
    requires reply.Response? && IsOkStatus(reply.status) ==>
      var fs := StreamFragments(parse, reply.body.chunks);
      fs == [] || (fs[0].id != [] && fs[0].id !in Ids(ms) && fs[0].id != freshId && fs[0].id != errorId)
    ensures DistinctIds(AfterSend(ms + [Message(freshId, User, content, false)], errorId, reply, parse))
  {
    var pending := ms + [Message(freshId, User, content, false)];
    AppendFreshId(ms, Message(freshId, User, content, false));
    AppendFreshId(pending, Apology(errorId));
    if reply.Response? && IsOkStatus(reply.status) {
      if StreamFragments(parse, reply.body.chunks) == [] {
        SendEmptyStream(pending, errorId, reply.status, reply.body, parse);
      } else {
        StreamedSendDistinct(pending, errorId, reply.status, reply.body, parse);
      }
    }
  }

  /** The stream case of `SendKeepsDistinctIds`: the bot message and the apology are both new. */
  lemma StreamedSendDistinct(pending: seq<Message>, errorId: string, status: int, body: Body, parse: Parser)
    requires IsOkStatus(status) && DistinctIds(pending) && errorId !in Ids(pending)
    requires var fs := StreamFragments(parse, body.chunks);
      fs != [] && fs[0].id != [] && fs[0].id !in Ids(pending) && fs[0].id != errorId
    ensures DistinctIds(AfterSend(pending, errorId, Response(status, body), parse))
  {
    var fs := StreamFragments(parse, body.chunks);
    var bot := Message(fs[0].id, Assistant, Contents(fs), false);
    SendStreamMerges(pending, errorId, status, body, parse);
    AppendFreshId(pending, bot);
    AppendFreshId(pending + [bot], Apology(errorId));
    assert pending + [bot, Apology(errorId)] == pending + [bot] + [Apology(errorId)];
  }

  class ChatWidget {
    var messages: seq<Message>
    var input: string
    var editingInput: string
    var isLoading: bool

    /** The initial state: the greeting alone, empty buffers, not loading. */
    constructor ()
      ensures messages == [Greeting] && input == [] && editingInput == [] && !isLoading
    {
      messages := [Greeting];
      input := [];
      editingInput := [];
      isLoading := false;
    }

    /** The message box's `onChange`. */
    method TypeInput(text: string)
      modifies this`input
      ensures input == text
    {
      input := text;
    }

    /** The edit box's `onChange`. */
    method TypeEditingInput(text: string)
      modifies this`editingInput
      ensures editingInput == text
    {
      editingInput := text;
    }

    /** `fetchAllMessages`: replace the list wholesale on success, keep it otherwise. */
    method FetchAllMessages(reply: Http<Option<seq<BackendMessage>>>) returns (signal: Signal)
      modifies this`messages
      ensures messages == AfterLoad(old(messages), reply)
      ensures signal == LoadSignal(reply)
    {
      match reply
      case NetworkError =>
        signal := Failed;
      case Response(status, data) =>
        if status == 401 {
          signal := SessionInvalid;
          return;
        }
        if !IsOkStatus(status) {
          signal := Failed;
          return;
        }
        match data
        case None =>
          signal := Failed;
        case Some(list) =>
          messages := FromBackendList(list);
          signal := Settled;
    }

    /** The mount effect: without a stored token go to the login page, otherwise load. */
    method Mount(storedToken: Option<string>, reply: Http<Option<seq<BackendMessage>>>) returns (signal: Signal)
      modifies this`messages
      ensures storedToken.None? || storedToken == Some([]) ==> signal == SessionInvalid && messages == old(messages)
      ensures storedToken.Some? && storedToken.value != [] ==>
        messages == AfterLoad(old(messages), reply) && signal == LoadSignal(reply)
    {
      if storedToken.None? || storedToken.value == [] {
        signal := SessionInvalid;
      } else {
        signal := FetchAllMessages(reply);
      }
    }

    /**
     * `handleSendMessage`. An input that is blank after trimming changes nothing
     * and sends nothing. Otherwise the untrimmed input is appended as a user
     * message with the fresh id, the input is cleared, the request carries that
     * id and text, and the reply is ingested; loading is off at the end.
     */
    method HandleSendMessage(freshId: string, errorId: string, reply: Http<Body>, parse: Parser)
      returns (request: Option<CreateRequest>, signal: Signal)
      modifies this
      ensures IsBlank(old(input)) ==>
        && request == None && signal == Settled
        && messages == old(messages) && input == old(input) && isLoading == old(isLoading)
      ensures !IsBlank(old(input)) ==>
        && request == Some(CreateRequest(freshId, old(input)))
        && messages == AfterSend(old(messages) + [Message(freshId, User, old(input), false)], errorId, reply, parse)
        && signal == SendSignal(reply)
        && input == [] && !isLoading
      ensures editingInput == old(editingInput)
    {
      var blank := TrimsToEmpty(input);
      if blank {
        return None, Settled;
      }
      var text := input;
      var pending := messages + [Message(freshId, User, text, false)];
      messages := pending;
      input := [];
      isLoading := true;
      request := Some(CreateRequest(freshId, text));

      signal := ReadReply(errorId, reply, parse);
      assert messages == AfterSend(pending, errorId, reply, parse);
      isLoading := false;
    }

    /**
     * The `try` block of `handleSendMessage` once the request is out, with its
     * `catch`: a 401 stops, a thrown error appends the apology, an OK body is read.
     */
    method ReadReply(errorId: string, reply: Http<Body>, parse: Parser) returns (signal: Signal)
      modifies this`messages
      ensures messages == AfterSend(old(messages), errorId, reply, parse)
      ensures signal == SendSignal(reply)
    {
      match reply {
        case NetworkError =>
          messages := messages + [Apology(errorId)];
          signal := Failed;
        case Response(status, body) =>
          if status == 401 {
            signal := SessionInvalid;
          } else if !IsOkStatus(status) {
            messages := messages + [Apology(errorId)];
            signal := Failed;
          } else {
            var botId, botContent := ReadStream(body.chunks, parse);
            if body.broken {
              messages := messages + [Apology(errorId)];
              signal := Failed;
            } else {
              signal := Settled;
            }
          }
      }
    }

    /**
     * The `while (true)` loop of `handleSendMessage`: every chunk, in order;
     * returns the final `botMessageId` and `botMessageContent`.
     */
    method ReadStream(chunks: seq<string>, parse: Parser) returns (botId: string, botContent: string)
      modifies this`messages
      ensures Reader(messages, botId, botContent) == ReadChunks(parse, Start(old(messages)), chunks)
    {
      ghost var start := Start(messages);
      botId, botContent := [], [];
      var i := 0;
      while i < |chunks|
        invariant 0 <= i <= |chunks|
        invariant Reader(messages, botId, botContent) == ReadChunks(parse, start, chunks[..i])
      {
        botId, botContent := ReadStreamChunk(chunks[i], parse, botId, botContent);
        assert chunks[..i + 1][..i] == chunks[..i];
        i := i + 1;
      }
      assert chunks[..i] == chunks;
    }

    /** One decoded chunk: split on `'\n'` and the inner `for` loop over its lines. */
    method ReadStreamChunk(chunk: string, parse: Parser, botId: string, botContent: string)
      returns (botId': string, botContent': string)
      modifies this`messages
      ensures Reader(messages, botId', botContent') == ReadLines(parse, Reader(old(messages), botId, botContent), Split(chunk))
    {
      var lines := Split(chunk);
      ghost var before := Reader(messages, botId, botContent);
      botId', botContent' := botId, botContent;
      var j := 0;
      while j < |lines|
        invariant 0 <= j <= |lines|
        invariant Reader(messages, botId', botContent') == ReadLines(parse, before, lines[..j])
      {
        botId', botContent' := ReadStreamLine(lines[j], parse, botId', botContent');
        assert lines[..j + 1][..j] == lines[..j];
        j := j + 1;
      }
      assert lines[..j] == lines;
    }

    /** The body of the inner `for` loop: one line, given the loop's two variables. */
    method ReadStreamLine(line: string, parse: Parser, botId: string, botContent: string)
      returns (botId': string, botContent': string)
      modifies this`messages
      ensures Reader(messages, botId', botContent') == ReadLine(parse, Reader(old(messages), botId, botContent), line)
    {
      botId', botContent' := botId, botContent;
      if StartsWith(line, DataPrefix) {
        var payload := Trim(line[5..]);
        if payload != [] {
          match parse(payload)
          case None =>
          case Some(data) =>
            if botId' == [] {
              botId' := data.id;
              messages := messages + [Message(botId', Assistant, [], false)];
            }
            botContent' := botContent' + data.content;
            messages := SetContent(messages, botId', botContent');
        }
      }
    }

    /**
     * `handleDeleteMessage`: the delete of that id is always requested; on an
     * OK reply the whole list is reloaded from the server (no local removal);
     * any other reply, 401 included, keeps the list.
     */
    method HandleDeleteMessage(id: string, reply: Http<()>, reload: Http<Option<seq<BackendMessage>>>)
      returns (request: DeleteRequest, signal: Signal)
      modifies this`messages
      ensures request == DeleteRequest(id)
      ensures reply.Response? && IsOkStatus(reply.status) ==>
        messages == AfterLoad(old(messages), reload) && signal == LoadSignal(reload)
      ensures !(reply.Response? && IsOkStatus(reply.status)) ==>
        messages == old(messages) && signal == Failed
    {
      request := DeleteRequest(id);
      if reply.Response? && IsOkStatus(reply.status) {
        signal := FetchAllMessages(reload);
      } else {
        signal := Failed;
      }
    }

    /** `handleEditMessage`: seed the edit buffer and flag every message with that id. */
    method HandleEditMessage(id: string, content: string)
      modifies this`messages, this`editingInput
      ensures editingInput == content
      ensures messages == SetEditing(old(messages), id, true)
    {
      editingInput := content;
      messages := SetEditing(messages, id, true);
    }

    /** `handleCancelEdit`: clear that id's flag and empty the edit buffer. */
    method HandleCancelEdit(id: string)
      modifies this`messages, this`editingInput
      ensures editingInput == []
      ensures messages == SetEditing(old(messages), id, false)
    {
      messages := SetEditing(messages, id, false);
      editingInput := [];
    }

    /**
     * `handleSaveEdit`. Blank text is a cancel and sends nothing. Otherwise the
     * untrimmed text is sent; an OK reply stores it in that id's messages and
     * leaves edit mode, any other reply changes nothing.
     */
    method HandleSaveEdit(id: string, newContent: string, reply: Http<()>) returns (request: Option<UpdateRequest>)
      modifies this`messages, this`editingInput
      ensures IsBlank(newContent) ==>
        request == None && messages == SetEditing(old(messages), id, false) && editingInput == []
      ensures !IsBlank(newContent) ==> request == Some(UpdateRequest(id, newContent))
      ensures !IsBlank(newContent) && reply.Response? && IsOkStatus(reply.status) ==>
        messages == SaveContent(old(messages), id, newContent) && editingInput == []
      ensures !IsBlank(newContent) && !(reply.Response? && IsOkStatus(reply.status)) ==>
        messages == old(messages) && editingInput == old(editingInput)
    {
      var blank := TrimsToEmpty(newContent);
      if !blank {
        request := Some(UpdateRequest(id, newContent));
        if reply.Response? && IsOkStatus(reply.status) {
          messages := SaveContent(messages, id, newContent);
          editingInput := [];
        }
      } else {
        request := None;
        HandleCancelEdit(id);
      }
    }
  }
}
