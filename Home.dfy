/**
  The home page's conversation bookkeeping (pages/index.tsx), without React and storage: each
  handler maps the page state (the conversation list, the selected conversation and the
  rename-editing fields) to the next one, and `Send` folds the streamed reply into the
  selected conversation.
 */
module Home {
  import opened Wrappers
  import opened Types
  import opened Text

  const NewConversationName := "New conversation"

  /** The selection used when no stored conversation is available. */
  const DefaultConversation := Conversation(1, "", [])

  /** The value of `editing` when no conversation is being renamed. */
  const NotEditing := -1

  datatype HomeState = HomeState(
    conversations: seq<Conversation>,
    selected: Option<Conversation>,
    editing: int,
    newConversationName: string)

  /** Ids strictly increase along the list, so no id appears twice. */
  predicate IdsIncreasing(conversations: seq<Conversation>) {
    forall i, j :: 0 <= i < j < |conversations| ==> conversations[i].id < conversations[j].id
  }

  /** `Array.prototype.find` on the id: the first conversation with that id. */
  function FindById(conversations: seq<Conversation>, id: int): (r: Option<Conversation>)
    ensures r.Some? ==> r.value.id == id && r.value in conversations
    ensures r.None? ==> forall i :: 0 <= i < |conversations| ==> conversations[i].id != id
  {
    if conversations == [] then None
    else if conversations[0].id == id then Some(conversations[0])
    else FindById(conversations[1..], id)
  }

  /** The search succeeds exactly when the id occurs, and then returns its first occurrence. */
  lemma {:induction false} FindByIdFindsFirst(conversations: seq<Conversation>, id: int)
    ensures FindById(conversations, id).Some? <==> exists i :: 0 <= i < |conversations| && conversations[i].id == id
    ensures FindById(conversations, id).Some? ==>
      exists i :: 0 <= i < |conversations| && conversations[i] == FindById(conversations, id).value
        && conversations[i].id == id && forall j :: 0 <= j < i ==> conversations[j].id != id
  {
    if conversations != [] && conversations[0].id != id {
      var rest := conversations[1..];
      FindByIdFindsFirst(rest, id);
      forall i | 0 < i < |conversations| ensures conversations[i] == rest[i - 1] { }
      if FindById(rest, id).Some? {
        var i :| 0 <= i < |rest| && rest[i] == FindById(rest, id).value
          && rest[i].id == id && forall j :: 0 <= j < i ==> rest[j].id != id;
        assert conversations[i + 1] == rest[i];
        forall j | 0 <= j < i + 1 ensures conversations[j].id != id {
          if j > 0 { assert conversations[j] == rest[j - 1]; }
        }
      }
    }
  }

  // ---------------------------------------------------------------- sending and streaming

  /** The per-chunk `map`: the newest message gets the running text and keeps its role. */
  function ReplaceLastContent(messages: seq<Message>, text: string): (r: seq<Message>)
    requires messages != []
    ensures |r| == |messages|
    ensures r[..|r| - 1] == messages[..|messages| - 1]
    ensures r[|r| - 1] == messages[|messages| - 1].(content := text)
  {
    seq(|messages|, i requires 0 <= i < |messages| =>
      if i == |messages| - 1 then messages[i].(content := text) else messages[i])
  }

  /**
    The read loop of a send. `chunks` are the decoded values of the reads, the last one being
    the read that reported `done` (usually decoding to ""); there is always at least that read.
    The first chunk appends one assistant message, every later one overwrites its content with
    the text received so far.
   */
  method StreamReply(conversation: Conversation, chunks: seq<string>) returns (updatedConversation: Conversation)
    requires chunks != []
    ensures updatedConversation == conversation.(messages := conversation.messages + [Message(Assistant, Concat(chunks))])
  {
    updatedConversation := conversation;
    var done := false;
    var isFirst := true;
    var text := "";
    var read := 0;
    while !done
      invariant 0 <= read <= |chunks|
      invariant done <==> read == |chunks|
      invariant isFirst <==> read == 0
      invariant text == Concat(chunks[..read])
      invariant updatedConversation == if isFirst then conversation
        else conversation.(messages := conversation.messages + [Message(Assistant, text)])
      decreases |chunks| - read
    {
      var chunkValue := chunks[read];
      read := read + 1;
      done := read == |chunks|;
      assert chunks[..read][..read - 1] == chunks[..read - 1];
      text := text + chunkValue;
      if isFirst {
        assert text == chunkValue;
        isFirst := false;
        var updatedMessages := updatedConversation.messages + [Message(Assistant, chunkValue)];
        updatedConversation := updatedConversation.(messages := updatedMessages);
        assert updatedConversation == conversation.(messages := conversation.messages + [Message(Assistant, text)]);
      } else {
        var updatedMessages := ReplaceLastContent(updatedConversation.messages, text);
        assert updatedMessages == conversation.messages + [Message(Assistant, text)];
        updatedConversation := updatedConversation.(messages := updatedMessages);
        assert updatedConversation == conversation.(messages := conversation.messages + [Message(Assistant, text)]);
      }
      assert text == Concat(chunks[..read]);
    }
    assert chunks[..read] == chunks;
  }

  /** How the chat endpoint answered the send. */
  datatype Reply =
    | NotOk(statusText: string)                // an Error carrying the status text is thrown
    | NoBody                                   // the handler returns early
    | Body(first: string, rest: seq<string>)   // the decoded reads, in order

  /**
    The list after a send: every entry with the selected id becomes the updated conversation;
    an empty list receives it as its only entry.
   */
  function AfterSend(conversations: seq<Conversation>, selectedId: int, updated: Conversation): (r: seq<Conversation>)
    ensures conversations == [] ==> r == [updated]
    ensures conversations != [] ==> |r| == |conversations|
    ensures conversations != [] ==> forall i :: 0 <= i < |r| ==>
      r[i] == if conversations[i].id == selectedId then updated else conversations[i]
  {
    var updatedConversations := seq(|conversations|, i requires 0 <= i < |conversations| =>
      if conversations[i].id == selectedId then updated else conversations[i]);
    if |updatedConversations| == 0 then [updated] else updatedConversations
  }

  /**
    After a send the list holds the updated conversation under its id, unless the list was
    non-empty and had no entry with that id: then the reply is not stored in the list at all.
   */
  lemma AfterSendStoresReply(conversations: seq<Conversation>, selectedId: int, updated: Conversation)
    requires updated.id == selectedId
    ensures FindById(AfterSend(conversations, selectedId, updated), selectedId)
      == if conversations == [] || exists i :: 0 <= i < |conversations| && conversations[i].id == selectedId
         then Some(updated) else None
  {
  }

  /**
    `handleSend`: append the user's message to the selected conversation, then, when the
    endpoint streams a body, fold the reply into it and store it in the list. Without a
    selection nothing happens.
   */
  method Send(state: HomeState, message: Message, reply: Reply) returns (next: HomeState, thrown: Option<string>)
    ensures state.selected.None? ==> next == state && thrown == None
    ensures state.selected.Some? ==>
      var selected := state.selected.value;
      var sent := selected.(messages := selected.messages + [message]);
      match reply
      case NotOk(statusText) => next == state.(selected := Some(sent)) && thrown == Some(statusText)
      case NoBody => next == state.(selected := Some(sent)) && thrown == None
      case Body(first, rest) =>
        var answered := sent.(messages := sent.messages + [Message(Assistant, Concat([first] + rest))]);
        && next == state.(selected := Some(answered), conversations := AfterSend(state.conversations, selected.id, answered))
        && thrown == None
  {
    next, thrown := state, None;
    if state.selected.Some? {
      var selectedConversation := state.selected.value;
      var updatedConversation := selectedConversation.(messages := selectedConversation.messages + [message]);
      next := next.(selected := Some(updatedConversation));
      match reply
      case NotOk(statusText) =>
        thrown := Some(statusText);
      case NoBody =>
      case Body(first, rest) =>
        updatedConversation := StreamReply(updatedConversation, [first] + rest);
        var updatedConversations := AfterSend(state.conversations, selectedConversation.id, updatedConversation);
        next := next.(selected := Some(updatedConversation), conversations := updatedConversations);
    }
  }

  // ---------------------------------------------------------------- list handlers

  /** The id a new conversation gets: one more than the last id, or 1 for an empty list. */
  function NextId(conversations: seq<Conversation>): (r: int)
    ensures conversations == [] ==> r == 1
    ensures IdsIncreasing(conversations) ==> forall i :: 0 <= i < |conversations| ==> conversations[i].id < r
  {
    if conversations == [] then 1 else conversations[|conversations| - 1].id + 1
  }

  /** `handleNewConversation`: append an empty "New conversation" and select it. */
  function NewConversation(state: HomeState): (next: HomeState)
    ensures next.selected.Some?
    ensures next.conversations == state.conversations + [next.selected.value]
    ensures next.selected.value.id == if state.conversations == [] then 1
      else state.conversations[|state.conversations| - 1].id + 1
    ensures next.selected.value.name == NewConversationName && next.selected.value.messages == []
    ensures next.editing == state.editing && next.newConversationName == state.newConversationName
  {
    var newConversation := Conversation(NextId(state.conversations), NewConversationName, []);
    state.(conversations := state.conversations + [newConversation], selected := Some(newConversation))
  }

  /** On a list with increasing ids the new id is larger than every stored one, hence unused. */
  lemma NewConversationIdIsFresh(state: HomeState)
    requires IdsIncreasing(state.conversations)
    ensures forall c :: c in state.conversations ==> c.id < NewConversation(state).selected.value.id
    ensures IdsIncreasing(NewConversation(state).conversations)
  {
  }

  /** `filter(c => c.id !== id)` on the conversation list. */
  function RemoveId(conversations: seq<Conversation>, id: int): (r: seq<Conversation>)
    ensures |r| <= |conversations|
    ensures forall i :: 0 <= i < |r| ==> r[i].id != id
  {
    if conversations == [] then []
    else if conversations[0].id == id then RemoveId(conversations[1..], id)
    else [conversations[0]] + RemoveId(conversations[1..], id)
  }

  /**
    The filter drops exactly the entries with the id: it keeps every other entry, shortens a
    list that holds the id and leaves a list without it as it is.
   */
  lemma {:induction false} RemoveIdSpec(conversations: seq<Conversation>, id: int)
    ensures var r := RemoveId(conversations, id);
      && |r| <= |conversations|
      && (forall c :: c in r <==> c in conversations && c.id != id)
      && ((forall i :: 0 <= i < |conversations| ==> conversations[i].id != id) ==> r == conversations)
      && ((exists i :: 0 <= i < |conversations| && conversations[i].id == id) ==> |r| < |conversations|)
  {
    if conversations != [] {
      var rest := conversations[1..];
      RemoveIdSpec(rest, id);
      assert conversations == [conversations[0]] + rest;
      if exists i :: 0 <= i < |conversations| && conversations[i].id == id {
        var i :| 0 <= i < |conversations| && conversations[i].id == id;
        if i > 0 { assert rest[i - 1].id == id; }
      }
      if forall i :: 0 <= i < |conversations| ==> conversations[i].id != id {
        assert forall i :: 0 <= i < |rest| ==> rest[i].id != id by {
          forall i | 0 <= i < |rest| ensures rest[i].id != id { assert rest[i] == conversations[i + 1]; }
        }
      }
    }
  }

  /** Filtering commutes with concatenation, so relative order is never changed. */
  lemma {:induction false} RemoveIdDistributes(a: seq<Conversation>, b: seq<Conversation>, id: int)
    ensures RemoveId(a + b, id) == RemoveId(a, id) + RemoveId(b, id)
  {
    if a != [] {
      assert (a + b)[1..] == a[1..] + b;
      RemoveIdDistributes(a[1..], b, id);
    } else {
      assert a + b == b;
    }
  }

  /**
    `handleDeleteConversation`: remove every entry with the conversation's id and select the
    first remaining one, or the default conversation when none remains.
   */
  function DeleteConversation(state: HomeState, conversation: Conversation): (next: HomeState)
    ensures forall c :: c in next.conversations <==> c in state.conversations && c.id != conversation.id
    ensures next.conversations == RemoveId(state.conversations, conversation.id)
    ensures next.selected == Some(if next.conversations == [] then DefaultConversation else next.conversations[0])
    ensures next.editing == state.editing && next.newConversationName == state.newConversationName
  {
    RemoveIdSpec(state.conversations, conversation.id);
    var updatedConversations := RemoveId(state.conversations, conversation.id);
    var selected := if |updatedConversations| > 0 then updatedConversations[0] else DefaultConversation;
    state.(conversations := updatedConversations, selected := Some(selected))
  }

  /** Every id in the list is larger than `bound`. */
  predicate IdsAbove(conversations: seq<Conversation>, bound: int) {
    forall c :: c in conversations ==> bound < c.id
  }

  /** Deleting keeps the ids increasing. */
  lemma {:induction false} RemoveIdKeepsIdsIncreasing(conversations: seq<Conversation>, id: int)
    requires IdsIncreasing(conversations)
    ensures IdsIncreasing(RemoveId(conversations, id))
  {
    if conversations != [] {
      var first, rest := conversations[0], conversations[1..];
      assert IdsIncreasing(rest) by {
        forall i, j | 0 <= i < j < |rest| ensures rest[i].id < rest[j].id {
          assert rest[i] == conversations[i + 1] && rest[j] == conversations[j + 1];
        }
      }
      assert IdsAbove(rest, first.id) by {
        forall c | c in rest ensures first.id < c.id {
          var j :| 0 <= j < |rest| && rest[j] == c;
          assert conversations[j + 1] == c;
        }
      }
      RemoveIdKeepsIdsIncreasing(rest, id);
      RemoveIdSpec(rest, id);
      var tail := RemoveId(rest, id);
      assert IdsAbove(tail, first.id);
      if first.id != id {
        ConsIdsIncreasing(first, tail);
      }
    }
  }

  lemma ConsIdsIncreasing(first: Conversation, tail: seq<Conversation>)
    requires IdsIncreasing(tail) && IdsAbove(tail, first.id)
    ensures IdsIncreasing([first] + tail)
  {
  }

  /**
    `handleRenameConversation`: every entry with the conversation's id becomes the given
    conversation under the new name, which is also selected.
   */
  function RenameConversation(state: HomeState, conversation: Conversation, name: string): (next: HomeState)
    ensures |next.conversations| == |state.conversations|
    ensures forall i :: 0 <= i < |next.conversations| ==>
      next.conversations[i] == if state.conversations[i].id == conversation.id
        then conversation.(name := name) else state.conversations[i]
    ensures next.selected == Some(conversation.(name := name))
    ensures next.editing == state.editing && next.newConversationName == state.newConversationName
  {
    var updatedConversation := conversation.(name := name);
    var cs := state.conversations;
    var updatedConversations := seq(|cs|, i requires 0 <= i < |cs| =>
      if cs[i].id == updatedConversation.id then updatedConversation else cs[i]);
    state.(conversations := updatedConversations, selected := Some(updatedConversation))
  }

  /**
    Renaming a stored conversation on a list with unique ids changes only that entry's name:
    length, order, ids and messages are kept.
   */
  lemma RenameStoredChangesOnlyName(state: HomeState, k: int, name: string)
    requires IdsIncreasing(state.conversations)
    requires 0 <= k < |state.conversations|
    ensures var cs := state.conversations;
      var next := RenameConversation(state, cs[k], name).conversations;
      && |next| == |cs|
      && (forall i :: 0 <= i < |cs| ==> next[i].id == cs[i].id && next[i].messages == cs[i].messages)
      && (forall i :: 0 <= i < |cs| ==> next[i].name == if i == k then name else cs[i].name)
  {
  }

  /** The `map` of a confirmed rename: entries with the id take the name; nothing else changes. */
  function SetName(conversations: seq<Conversation>, id: int, name: string): (r: seq<Conversation>)
    ensures |r| == |conversations|
    ensures forall i :: 0 <= i < |r| ==> r[i].id == conversations[i].id && r[i].messages == conversations[i].messages
    ensures forall i :: 0 <= i < |r| ==> r[i].name == if conversations[i].id == id then name else conversations[i].name
  {
    seq(|conversations|, i requires 0 <= i < |conversations| =>
      if conversations[i].id == id then conversations[i].(name := name) else conversations[i])
  }

  /**
    `handleConfirmRenameConversation`: with a non-empty name, rename every entry with the id
    and select the first of them (or the default conversation); with an empty name the list
    and the selection stay. Either way the editing state is reset.
   */
  function ConfirmRename(state: HomeState, conversation: Conversation, name: string): (next: HomeState)
    ensures next.editing == NotEditing && next.newConversationName == ""
    ensures name == "" ==> next.conversations == state.conversations && next.selected == state.selected
    ensures name != "" ==> next.conversations == SetName(state.conversations, conversation.id, name)
    ensures name != "" ==> next.selected == Some(FindById(next.conversations, conversation.id).GetOr(DefaultConversation))
  {
    var renamed :=
      if name != "" then
        var updatedConversations := SetName(state.conversations, conversation.id, name);
        state.(
          conversations := updatedConversations,
          selected := Some(FindById(updatedConversations, conversation.id).GetOr(DefaultConversation)))
      else state;
    renamed.(editing := NotEditing, newConversationName := "")
  }

  /**
    A confirmed non-empty rename selects the renamed entry when the id is stored (the first
    such entry), and the default conversation when it is not.
   */
  lemma ConfirmRenameSelectsRenamed(state: HomeState, conversation: Conversation, name: string)
    requires name != ""
    ensures var cs := state.conversations;
      var selected := ConfirmRename(state, conversation, name).selected.value;
      if exists i :: 0 <= i < |cs| && cs[i].id == conversation.id then
        selected.id == conversation.id && selected.name == name
        && exists i :: 0 <= i < |cs| && cs[i].id == conversation.id && selected.messages == cs[i].messages
      else selected == DefaultConversation
  {
  }

  /** Every list handler keeps the ids strictly increasing, so ids stay unique. */
  lemma ListHandlersKeepIdsIncreasing(
    state: HomeState, conversation: Conversation, name: string, selectedId: int, updated: Conversation)
    requires IdsIncreasing(state.conversations)
    requires updated.id == selectedId
    ensures IdsIncreasing(NewConversation(state).conversations)
    ensures IdsIncreasing(DeleteConversation(state, conversation).conversations)
    ensures IdsIncreasing(RenameConversation(state, conversation, name).conversations)
    ensures IdsIncreasing(ConfirmRename(state, conversation, name).conversations)
    ensures IdsIncreasing(AfterSend(state.conversations, selectedId, updated))
  {
    var cs := state.conversations;
    NewConversationIdIsFresh(state);
    RemoveIdKeepsIdsIncreasing(cs, conversation.id);
    SameIdsKeepIncreasing(cs, RenameConversation(state, conversation, name).conversations);
    SameIdsKeepIncreasing(cs, ConfirmRename(state, conversation, name).conversations);
    if cs != [] {
      SameIdsKeepIncreasing(cs, AfterSend(cs, selectedId, updated));
    }
  }

  lemma SameIdsKeepIncreasing(conversations: seq<Conversation>, other: seq<Conversation>)
    requires IdsIncreasing(conversations)
    requires |other| == |conversations|
    requires forall i :: 0 <= i < |other| ==> other[i].id == conversations[i].id
    ensures IdsIncreasing(other)
  {
  }
}
