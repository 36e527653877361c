/**
 * The widget's local conversation (frontend/src/components/chat-widget.tsx): the
 * message record and the whole-list transforms the handlers apply with `map`
 * and spreads.
 */
module ChatMessages {
  import opened Common

  /** A message as the widget holds it; `isEditing` absent in the source reads as false. */
  datatype Message = Message(id: string, role: Role, content: string, isEditing: bool)

  /** A message as `GET /messages` returns it. */
  datatype BackendMessage = BackendMessage(id: string, content: string, role: Role, sender: string, timestamp: int)

  /** The greeting the widget shows before anything is loaded. */
  const Greeting: Message :=
    Message("0", Assistant, "Hey\U{1F44B}, I'm Ava\nAsk me anything or pick a place to start", false)

  /** The fixed reply appended when sending fails. */
  const ApologyText: string := "Sorry, there was an error processing your request."

  /** The ids of the list, in order: what `DistinctIds` and the freshness requirements speak about. */
  function Ids(ms: seq<Message>): (r: seq<string>)
    ensures |r| == |ms| && forall i :: 0 <= i < |ms| ==> r[i] == ms[i].id
  {
    seq(|ms|, i requires 0 <= i < |ms| => ms[i].id)
  }

  /** No two messages of the list share an id (the list's key, as in React's `key={message.id}`). */
  predicate DistinctIds(ms: seq<Message>) {
    forall i, j :: 0 <= i < j < |ms| ==> ms[i].id != ms[j].id
  }

  /** Appending a message whose id the list does not hold keeps the ids distinct. */
  lemma AppendFreshId(ms: seq<Message>, m: Message)
    requires DistinctIds(ms) && m.id !in Ids(ms)
    ensures DistinctIds(ms + [m])
    ensures Ids(ms + [m]) == Ids(ms) + [m.id]
  {
    forall i | 0 <= i < |ms| ensures ms[i].id != m.id {
      assert Ids(ms)[i] == ms[i].id;
    }
  }

  /** The view the widget keeps of a fetched message: id, role and content; not editing. */
  function FromBackend(m: BackendMessage): Message {
    Message(m.id, m.role, m.content, false)
  }

  /** `data.map(msg => ({id, role, content}))`. */
  function FromBackendList(data: seq<BackendMessage>): seq<Message> {
    seq(|data|, i requires 0 <= i < |data| => FromBackend(data[i]))
  }

  /** `prev.map(m => m.id === id ? {...m, isEditing: flag} : m)`. */
  function SetEditing(ms: seq<Message>, id: string, flag: bool): seq<Message> {
    seq(|ms|, i requires 0 <= i < |ms| => if ms[i].id == id then ms[i].(isEditing := flag) else ms[i])
  }

  /** `prev.map(m => m.id === id ? {...m, content} : m)`. */
  function SetContent(ms: seq<Message>, id: string, content: string): seq<Message> {
    seq(|ms|, i requires 0 <= i < |ms| => if ms[i].id == id then ms[i].(content := content) else ms[i])
  }

  /** `messages.map(m => m.id === id ? {...m, content, isEditing: false} : m)`. */
  function SaveContent(ms: seq<Message>, id: string, content: string): seq<Message> {
    seq(|ms|, i requires 0 <= i < |ms| => if ms[i].id == id then ms[i].(content := content, isEditing := false) else ms[i])
  }

  /**
   * `b` extends `a`: it is at least as long, and each entry of `a` is still at
   * its position in `b` with the same id, role and editing flag (only its
   * content may differ).
   */
  predicate KeepsEntries(a: seq<Message>, b: seq<Message>) {
    |a| <= |b| &&
    forall i :: 0 <= i < |a| ==> b[i].id == a[i].id && b[i].role == a[i].role && b[i].isEditing == a[i].isEditing
  }

  /** The fetched list is the server list, in server order, reduced to id, role and content. */
  lemma FromBackendListKeepsOrder(data: seq<BackendMessage>)
    ensures |FromBackendList(data)| == |data|
    ensures forall i :: 0 <= i < |data| ==>
      var m := FromBackendList(data)[i];
      m.id == data[i].id && m.role == data[i].role && m.content == data[i].content && !m.isEditing
  {
  }

  /**
   * Toggling the editing flag of one id changes nothing but that flag: ids,
   * roles and contents stay, messages with another id stay exactly as they
   * were (in particular, other messages' flags are not cleared).
   */
  lemma SetEditingOnlyTouchesFlag(ms: seq<Message>, id: string, flag: bool)
    ensures |SetEditing(ms, id, flag)| == |ms|
    ensures Ids(SetEditing(ms, id, flag)) == Ids(ms)
    ensures forall i :: 0 <= i < |ms| ==>
      var m := SetEditing(ms, id, flag)[i];
      m.role == ms[i].role && m.content == ms[i].content
      && (ms[i].id == id ==> m.isEditing == flag)
      && (ms[i].id != id ==> m == ms[i])
  {
  }

  /** Saving replaces the content of that id's messages and leaves edit mode; others stay. */
  lemma SaveContentOnlyTouchesTarget(ms: seq<Message>, id: string, content: string)
    ensures |SaveContent(ms, id, content)| == |ms|
    ensures Ids(SaveContent(ms, id, content)) == Ids(ms)
    ensures forall i :: 0 <= i < |ms| ==>
      var m := SaveContent(ms, id, content)[i];
      m.role == ms[i].role
      && (ms[i].id == id ==> m.content == content && !m.isEditing)
      && (ms[i].id != id ==> m == ms[i])
  {
  }

  /**
   * The `map` transforms keep every id in its place, so a list with distinct
   * ids keeps them distinct through edit, cancel, stream and save.
   */
  lemma TransformsKeepIds(ms: seq<Message>, id: string, flag: bool, content: string)
    ensures Ids(SetEditing(ms, id, flag)) == Ids(ms)
    ensures Ids(SetContent(ms, id, content)) == Ids(ms)
    ensures Ids(SaveContent(ms, id, content)) == Ids(ms)
    ensures DistinctIds(ms) ==>
      DistinctIds(SetEditing(ms, id, flag)) && DistinctIds(SetContent(ms, id, content))
      && DistinctIds(SaveContent(ms, id, content))
  {
  }

  /** The loaded list has distinct ids exactly when the server's rows do. */
  lemma FromBackendListDistinct(data: seq<BackendMessage>)
    ensures DistinctIds(FromBackendList(data)) <==>
      forall i, j :: 0 <= i < j < |data| ==> data[i].id != data[j].id
  {
    var ms := FromBackendList(data);
    assert forall i :: 0 <= i < |data| ==> ms[i].id == data[i].id;
  }

  /** Replacing the content of an id that no earlier message carries touches only the new message. */
  lemma SetContentOfFreshLast(ms: seq<Message>, m: Message, content: string)
    requires m.id !in Ids(ms)
    ensures SetContent(ms + [m], m.id, content) == ms + [m.(content := content)]
  {
    var r := SetContent(ms + [m], m.id, content);
    forall i | 0 <= i < |ms| ensures r[i] == ms[i] {
      assert Ids(ms)[i] == ms[i].id;
    }
  }

  /** Editing then cancelling the same id restores every message of the list. */
  lemma EditThenCancelRestores(ms: seq<Message>, id: string)
    requires forall i :: 0 <= i < |ms| && ms[i].id == id ==> !ms[i].isEditing
    ensures SetEditing(SetEditing(ms, id, true), id, false) == ms
  {
  }
}
