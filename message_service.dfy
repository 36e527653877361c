/**
 * The server's message table and the operations of
 * backend/app/services/message_service.py: per-user listing, insertion with a
 * client-chosen id (answered by a stream of events and a saved bot message),
 * the content update and the suffix delete. Timestamps are integers; the
 * database is the sequence of rows.
 */
module MessageService {
  import opened Common
  import opened Text

  /** A row of the `messages` table. */
  datatype Row = Row(id: string, content: string, sender: string, timestamp: int, role: Role)

  /** The object each streamed event serialises: `{'id', 'content', 'role'}`. */
  datatype Event = Event(id: string, content: string, role: Role)

  /** `json.dumps` on an event; its output format is not modelled. */
  type Encoder = Event -> string

  /** Some row of the table already has this id. */
  predicate HasId(rows: seq<Row>, id: string) {
    exists i :: 0 <= i < |rows| && rows[i].id == id
  }

  /** The primary-key constraint on `id`. */
  predicate UniqueIds(rows: seq<Row>) {
    forall i, j :: 0 <= i < j < |rows| ==> rows[i].id != rows[j].id
  }

  // ---------------------------------------------------------------- listing

  /** `WHERE sender = $1`: the rows of one user, each with its multiplicity in the table. */
  function OwnedBy(rows: seq<Row>, sender: string): (r: seq<Row>)
    ensures forall x :: multiset(r)[x] == if x.sender == sender then multiset(rows)[x] else 0
  {
    if rows == [] then []
    else
      var init, last := rows[..|rows| - 1], rows[|rows| - 1];
      assert rows == init + [last];
      if last.sender == sender then OwnedBy(init, sender) + [last] else OwnedBy(init, sender)
  }

  predicate SortedByTime(rs: seq<Row>) {
    forall i, j :: 0 <= i < j < |rs| ==> rs[i].timestamp <= rs[j].timestamp
  }

  /** A row no later than the head of a sorted list keeps it sorted when put in front. */
  lemma ConsSorted(x: Row, rest: seq<Row>)
    requires SortedByTime(rest) && (rest == [] || x.timestamp <= rest[0].timestamp)
    ensures SortedByTime([x] + rest)
  {
    var t := [x] + rest;
    forall i, j | 0 <= i < j < |t| ensures t[i].timestamp <= t[j].timestamp {
      if i > 0 {
        assert t[i] == rest[i - 1] && t[j] == rest[j - 1];
      } else if j > 1 {
        assert rest[0].timestamp <= rest[j - 1].timestamp;
      }
    }
  }

  /** The tail of a sorted list is sorted, and its head is no later than the rest. */
  lemma TailSorted(s: seq<Row>)
    requires SortedByTime(s) && s != []
    ensures SortedByTime(s[1..])
    ensures |s| > 1 ==> s[0].timestamp <= s[1].timestamp
  {
    forall i, j | 0 <= i < j < |s[1..]| ensures s[1..][i].timestamp <= s[1..][j].timestamp {
      assert s[1..][i] == s[i + 1] && s[1..][j] == s[j + 1];
    }
  }

  /** One row put into a time-sorted list. */
  function InsertByTime(r: Row, s: seq<Row>): (t: seq<Row>)
    requires SortedByTime(s)
    ensures SortedByTime(t)
    ensures multiset(t) == multiset(s) + multiset{r}
    ensures |t| == |s| + 1 && (t[0] == r || (s != [] && t[0] == s[0]))
  {
    if s == [] then [r]
    else if r.timestamp <= s[0].timestamp then
      ConsSorted(r, s);
      [r] + s
    else
      TailSorted(s);
      var rest := InsertByTime(r, s[1..]);
      InsertBehindHead(r, s, rest);
      [s[0]] + rest
  }

  /** The step of `InsertByTime` that keeps the head of `s` in front of the rest. */
  lemma InsertBehindHead(r: Row, s: seq<Row>, rest: seq<Row>)
    requires s != [] && s[0].timestamp < r.timestamp && SortedByTime(s)
    requires SortedByTime(rest) && multiset(rest) == multiset(s[1..]) + multiset{r}
    requires |rest| == |s| && (rest[0] == r || (|s| > 1 && rest[0] == s[1]))
    ensures SortedByTime([s[0]] + rest)
    ensures multiset([s[0]] + rest) == multiset(s) + multiset{r}
  {
    TailSorted(s);
    ConsSorted(s[0], rest);
    assert s == [s[0]] + s[1..];
  }

  /** `ORDER BY timestamp ASC` (the order of rows with equal timestamps is left open by SQL). */
  function SortByTime(s: seq<Row>): (t: seq<Row>)
    ensures SortedByTime(t)
    ensures multiset(t) == multiset(s)
  {
    if s == [] then []
    else
      assert s == [s[0]] + s[1..];
      InsertByTime(s[0], SortByTime(s[1..]))
  }

  /**
   * `get_user_messages`: exactly the rows whose sender is the user, each as
   * often as in the table, in ascending timestamp order.
   */
  function UserMessages(rows: seq<Row>, sender: string): (r: seq<Row>)
    ensures SortedByTime(r)
    ensures forall x :: multiset(r)[x] == if x.sender == sender then multiset(rows)[x] else 0
  {
    SortByTime(OwnedBy(rows, sender))
  }

  /** Membership in the listing, as a plain statement. */
  lemma UserMessagesMembers(rows: seq<Row>, sender: string, x: Row)
    ensures x in UserMessages(rows, sender) <==> x in rows && x.sender == sender
  {
    assert x in UserMessages(rows, sender) <==> multiset(UserMessages(rows, sender))[x] > 0;
    assert x in rows <==> multiset(rows)[x] > 0;
  }

  // ---------------------------------------------------------------- lookups

  /** The first row with this id sent by this user (`WHERE id = $1 AND sender = $2`). */
  function FindOwned(rows: seq<Row>, id: string, sender: string): (r: Option<nat>)
    ensures r.Some? ==> r.value < |rows| && rows[r.value].id == id && rows[r.value].sender == sender
    ensures r.None? ==> forall i :: 0 <= i < |rows| ==> !(rows[i].id == id && rows[i].sender == sender)
    ensures r.Some? ==> forall i :: 0 <= i < r.value ==> !(rows[i].id == id && rows[i].sender == sender)
  {
    if rows == [] then None
    else if rows[0].id == id && rows[0].sender == sender then Some(0)
    else match FindOwned(rows[1..], id, sender)
      case None => None
      case Some(k) => Some(k + 1)
  }

  // ---------------------------------------------------------------- insert

  /** `INSERT`, or the unique violation when the id is taken. */
  function Insert(rows: seq<Row>, row: Row): (r: Option<seq<Row>>)
    ensures r.None? <==> HasId(rows, row.id)
    ensures r.Some? ==> r.value == rows + [row]
  {
    if HasId(rows, row.id) then None else Some(rows + [row])
  }

  lemma InsertKeepsUniqueIds(rows: seq<Row>, row: Row)
    requires UniqueIds(rows) && !HasId(rows, row.id)
    ensures UniqueIds(rows + [row])
  {
  }

  /** One server-sent event frame: `data: <json>` followed by a blank line. */
  function EventFrame(encode: Encoder, botId: string, token: string): string {
    "data: " + encode(Event(botId, token, Assistant)) + "\n\n"
  }

  /**
   * `event_generator`: one frame per token, all with the same bot id, and the
   * accumulated `bot_message_content` (the tokens concatenated in order).
   */
  method EventGenerator(encode: Encoder, botId: string, tokens: seq<string>) returns (frames: seq<string>, content: string)
    ensures |frames| == |tokens|
    ensures forall i :: 0 <= i < |tokens| ==> frames[i] == EventFrame(encode, botId, tokens[i])
    ensures content == Concat(tokens)
  {
    frames, content := [], [];
    var i := 0;
    while i < |tokens|
      invariant 0 <= i <= |tokens|
      invariant |frames| == i
      invariant forall k :: 0 <= k < i ==> frames[k] == EventFrame(encode, botId, tokens[k])
      invariant content == Concat(tokens[..i])
    {
      assert tokens[..i + 1][..i] == tokens[..i];
      content := content + tokens[i];
      frames := frames + [EventFrame(encode, botId, tokens[i])];
      i := i + 1;
    }
    assert tokens[..i] == tokens;
  }

  // ---------------------------------------------------------------- update

  /** `UPDATE messages SET content = $1 WHERE id = $2 AND sender = $3`. */
  function UpdateContent(rows: seq<Row>, id: string, sender: string, content: string): seq<Row> {
    seq(|rows|, i requires 0 <= i < |rows| =>
      if rows[i].id == id && rows[i].sender == sender then rows[i].(content := content) else rows[i])
  }

  /**
   * With unique ids the update changes the content of the one matching row and
   * nothing else: no other row, and no other field of that row.
   */
  lemma UpdateContentOnlyTarget(rows: seq<Row>, id: string, sender: string, content: string, k: nat)
    requires UniqueIds(rows) && k < |rows| && rows[k].id == id && rows[k].sender == sender
    ensures var r := UpdateContent(rows, id, sender, content);
      && |r| == |rows| && UniqueIds(r)
      && r[k] == rows[k].(content := content)
      && forall i :: 0 <= i < |rows| && i != k ==> r[i] == rows[i]
  {
  }

  // ---------------------------------------------------------------- delete

  /** `DELETE FROM messages WHERE sender = $1 AND timestamp >= $2`. */
  function SuffixDelete(rows: seq<Row>, sender: string, since: int): (r: seq<Row>)
    ensures forall x :: multiset(r)[x] == if x.sender == sender && x.timestamp >= since then 0 else multiset(rows)[x]
    ensures |r| <= |rows|
  {
    if rows == [] then []
    else
      var init, last := rows[..|rows| - 1], rows[|rows| - 1];
      assert rows == init + [last];
      var kept := SuffixDelete(init, sender, since);
      if last.sender == sender && last.timestamp >= since then kept else kept + [last]
  }

  /**
   * The suffix delete removes this user's rows at or after the cut and keeps
   * every other row: earlier rows of the user and all rows of other users.
   */
  lemma SuffixDeleteMembers(rows: seq<Row>, sender: string, since: int, x: Row)
    ensures x in SuffixDelete(rows, sender, since) <==> x in rows && !(x.sender == sender && x.timestamp >= since)
  {
    assert x in SuffixDelete(rows, sender, since) <==> multiset(SuffixDelete(rows, sender, since))[x] > 0;
    assert x in rows <==> multiset(rows)[x] > 0;
  }

  /** Deleting from the time of a row of the user removes at least that row. */
  lemma {:induction false} SuffixDeleteRemovesTarget(rows: seq<Row>, sender: string, k: nat)
    requires k < |rows| && rows[k].sender == sender
    ensures |SuffixDelete(rows, sender, rows[k].timestamp)| < |rows|
  {
    var since := rows[k].timestamp;
    var init := rows[..|rows| - 1];
    if k < |rows| - 1 {
      assert init[k] == rows[k];
      SuffixDeleteRemovesTarget(init, sender, k);
    }
  }

  /** Every row the suffix delete keeps was in the table. */
  lemma KeptRowIsOld(rows: seq<Row>, sender: string, since: int, x: Row)
    requires x in SuffixDelete(rows, sender, since)
    ensures x in rows
  {
    assert multiset(SuffixDelete(rows, sender, since))[x] > 0;
  }

  /** The rows kept by the suffix delete still have distinct ids. */
  lemma {:induction false} SuffixDeleteKeepsUniqueIds(rows: seq<Row>, sender: string, since: int)
    requires UniqueIds(rows)
    ensures UniqueIds(SuffixDelete(rows, sender, since))
  {
    if rows != [] {
      var init, last := rows[..|rows| - 1], rows[|rows| - 1];
      SuffixDeleteKeepsUniqueIds(init, sender, since);
      var kept := SuffixDelete(init, sender, since);
      forall i | 0 <= i < |kept| ensures kept[i].id != last.id {
        KeptRowIsOld(init, sender, since, kept[i]);
      }
    }
  }

  /**
   * The table the service works on. Every operation runs to completion by
   * itself; transactions and concurrent requests are not modelled.
   */
  class MessageTable {
    var rows: seq<Row>

    predicate Valid()
      reads this
    {
      UniqueIds(rows)
    }

    constructor ()
      ensures Valid() && rows == []
    {
      rows := [];
    }

    /**
     * `save_bot_message`: store the accumulated reply under the bot id; when
     * the insert fails the error is logged and the table is left as it is.
     */
    method SaveBotMessage(botId: string, content: string, sender: string, now: int)
      requires Valid()
      modifies this
      ensures Valid()
      ensures rows == match Insert(old(rows), Row(botId, content, sender, now, Assistant))
                      case None => old(rows)
                      case Some(r) => r
    {
      var row := Row(botId, content, sender, now, Assistant);
      if !HasId(rows, row.id) {
        InsertKeepsUniqueIds(rows, row);
        rows := rows + [row];
      }
    }

    /**
     * `create_user_message`, run to completion: insert the user row with the
     * client's id (400 when the id exists, with no change), stream one frame
     * per token, then save the bot message holding all the tokens.
     */
    method CreateUserMessage(id: string, content: string, sender: string, now: int,
                             encode: Encoder, botId: string, tokens: seq<string>, savedAt: int)
      returns (r: Result<seq<string>>)
      requires Valid()
      modifies this
      ensures Valid()
      ensures HasId(old(rows), id) ==>
        r == Fail(HttpError(400, "Message with this ID already exists")) && rows == old(rows)
      ensures !HasId(old(rows), id) ==>
        && r.Ok? && |r.value| == |tokens|
        && (forall i :: 0 <= i < |tokens| ==> r.value[i] == EventFrame(encode, botId, tokens[i]))
        && |rows| >= |old(rows)| + 1
        && rows[..|old(rows)| + 1] == old(rows) + [Row(id, content, sender, now, User)]
        && rows == match Insert(old(rows) + [Row(id, content, sender, now, User)], Row(botId, Concat(tokens), sender, savedAt, Assistant))
                   case None => old(rows) + [Row(id, content, sender, now, User)]
                   case Some(t) => t
    {
      var row := Row(id, content, sender, now, User);
      match Insert(rows, row)
      case None =>
        r := Fail(HttpError(400, "Message with this ID already exists"));
      case Some(inserted) =>
        InsertKeepsUniqueIds(rows, row);
        rows := inserted;
        var frames, botContent := EventGenerator(encode, botId, tokens);
        SaveBotMessage(botId, botContent, sender, savedAt);
        r := Ok(frames);
    }

    /**
     * `update_user_message`: missing or empty content is a 400; otherwise the
     * content of the row with this id and sender is replaced and that row
     * returned, or a 404 when there is none. Errors change nothing.
     */
    method UpdateUserMessage(id: string, content: Option<string>, sender: string) returns (r: Result<Row>)
      requires Valid()
      modifies this
      ensures Valid()
      ensures content.None? || content == Some([]) ==>
        r == Fail(HttpError(400, "Content is required")) && rows == old(rows)
      ensures content.Some? && content.value != [] && FindOwned(old(rows), id, sender).None? ==>
        r == Fail(HttpError(404, "Message not found or not editable")) && rows == old(rows)
      ensures content.Some? && content.value != [] && FindOwned(old(rows), id, sender).Some? ==>
        && rows == UpdateContent(old(rows), id, sender, content.value)
        && r == Ok(old(rows)[FindOwned(old(rows), id, sender).value].(content := content.value))
    {
      if content.None? || content.value == [] {
        return Fail(HttpError(400, "Content is required"));
      }
      match FindOwned(rows, id, sender)
      case None =>
        r := Fail(HttpError(404, "Message not found or not editable"));
      case Some(k) =>
        UpdateContentOnlyTarget(rows, id, sender, content.value, k);
        rows := UpdateContent(rows, id, sender, content.value);
        r := Ok(rows[k]);
    }

    /**
     * `delete_user_message`: a 404 when this user has no row with this id;
     * otherwise every row of the user from that row's timestamp on is removed.
     */
    method DeleteUserMessage(id: string, sender: string) returns (r: Result<()>)
      requires Valid()
      modifies this
      ensures Valid()
      ensures FindOwned(old(rows), id, sender).None? ==>
        r == Fail(HttpError(404, "Message not found or not deletable")) && rows == old(rows)
      ensures FindOwned(old(rows), id, sender).Some? ==>
        && rows == SuffixDelete(old(rows), sender, old(rows)[FindOwned(old(rows), id, sender).value].timestamp)
        && r == Ok(())
    {
      match FindOwned(rows, id, sender)
      case None =>
        r := Fail(HttpError(404, "Message not found or not deletable"));
      case Some(k) =>
        var since := rows[k].timestamp;
        var before := |rows|;
        SuffixDeleteRemovesTarget(rows, sender, k);
        SuffixDeleteKeepsUniqueIds(rows, sender, since);
        rows := SuffixDelete(rows, sender, since);
        var deleted := before - |rows|;
        r := if deleted == 0 then Fail(HttpError(404, "No messages were deleted")) else Ok(());
    }
  }
}
