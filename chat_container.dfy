/**
 * The chat container component (`components/Chat.tsx`) as an object: its state
 * hooks become fields, and each handler a method whose every `setAllChats` call is
 * one atomic update of `allChats`. The model API is not called: what it would
 * answer is passed in, and what the component asks of it is returned.
 */
module ChatComponent {
  import opened Wrappers
  import opened Types
  import opened Grounding
  import opened ChatState
  import opened ImageIntent

  /** What the model API answers to one send. */
  datatype Replies = Replies(
    chunks: seq<StreamChunk>,   // the responses the stream yields before it ends or throws
    streamFailed: bool,         // whether the stream throws after `chunks`
    image: Option<string>)      // what `generateImage` resolves to (null as None)

  /** The request a send makes of the model API. */
  datatype Request =
    | NoRequest
    | StreamRequest(history: seq<Message>, newParts: seq<Part>, useWebSearch: bool)
    | ImageRequest(prompt: string)

  /** The chat a send goes to: the active one, or the one created with the clock value `now`. */
  function TargetId(active: Option<string>, now: nat): string {
    if active.Some? then active.value else ChatId(now)
  }

  function TargetChat(chats: map<string, Chat>, active: Option<string>, now: nat): Chat
    requires active.Some? ==> active.value in chats
  {
    if active.Some? then chats[active.value] else NewChat(now)
  }

  /** The map once the user's message is appended to the target chat. */
  function WithUserMessage(chats: map<string, Chat>, active: Option<string>, now: nat, parts: seq<Part>): map<string, Chat>
    requires active.Some? ==> active.value in chats
  {
    chats[TargetId(active, now) := AppendMessage(TargetChat(chats, active, now), UserMessage(parts))]
  }

  /** The map after a send, as the updaters leave it once the reply path has finished. */
  function SendOutcome(chats: map<string, Chat>, active: Option<string>, now: nat,
                       text: string, image: Option<InlineData>, replies: Replies): map<string, Chat>
    requires active.Some? ==> active.value in chats
  {
    var parts := UserParts(text, image);
    if parts == [] then chats
    else
      var id := TargetId(active, now);
      ReplyOutcome(WithUserMessage(chats, active, now, parts), id, text, replies)
  }

  /** The map after the reply path for `text` has run on the chat `id`. */
  function ReplyOutcome(chats: map<string, Chat>, id: string, text: string, replies: Replies): map<string, Chat>
    requires id in chats
  {
    if ImagePrompt(text).Some? then ImageOutcome(chats, id, replies.image)
    else StreamOutcome(AddPlaceholder(chats, id), id, replies.chunks, replies.streamFailed)
  }

  /** What a send asks of the model API: nothing, a picture, or a streamed answer to the history. */
  function SendRequest(chats: map<string, Chat>, active: Option<string>, now: nat,
                       text: string, image: Option<InlineData>): Request
    requires active.Some? ==> active.value in chats
  {
    var parts := UserParts(text, image);
    if parts == [] then NoRequest
    else if ImagePrompt(text).Some? then ImageRequest(ImagePrompt(text).value)
    else
      var before := TargetChat(chats, active, now);
      StreamRequest(before.messages, parts, before.useWebSearch)
  }

  /** The MODEL message a send leaves after the user's: the picture or its apology, or the streamed answer. */
  function SendAnswer(text: string, replies: Replies): Message {
    if ImagePrompt(text).Some? then ImageReply(replies.image)
    else StreamedAnswer(replies.chunks, replies.streamFailed)
  }

  /**
   * A send with something to say appends exactly two messages to the target chat,
   * the user's and the MODEL's answer, keeps its id, title and web-search switch,
   * adds no chat but the new one and touches no other chat.
   */
  lemma SendAppendsExchange(chats: map<string, Chat>, active: Option<string>, now: nat,
                            text: string, image: Option<InlineData>, replies: Replies)
    requires active.Some? ==> active.value in chats
    requires UserParts(text, image) != []
    ensures var id := TargetId(active, now);
            var before := TargetChat(chats, active, now);
            var after := SendOutcome(chats, active, now, text, image, replies);
            && after.Keys == chats.Keys + {id}
            && (forall k :: k in chats && k != id ==> after[k] == chats[k])
            && after[id].id == before.id && after[id].title == before.title
            && after[id].useWebSearch == before.useWebSearch
            && after[id].messages == before.messages + [UserMessage(UserParts(text, image)), SendAnswer(text, replies)]
  {
    var parts := UserParts(text, image);
    var id := TargetId(active, now);
    var before := TargetChat(chats, active, now);
    var withUser := WithUserMessage(chats, active, now, parts);
    var after := ReplyOutcome(withUser, id, text, replies);
    ReplyAppendsAnswer(withUser, id, text, replies);
    TwoAppended(chats, id, before, UserMessage(parts), withUser, SendAnswer(text, replies), after);
  }

  /** Appending `u` to `before` under `id`, then `answer` to that chat, appends both and adds only `id`. */
  lemma TwoAppended(chats: map<string, Chat>, id: string, before: Chat, u: Message,
                    withUser: map<string, Chat>, answer: Message, after: map<string, Chat>)
    requires withUser == chats[id := AppendMessage(before, u)]
    requires OthersUnchanged(withUser, after, id) && Appended(withUser[id], after[id], answer)
    ensures after.Keys == chats.Keys + {id}
    ensures forall k :: k in chats && k != id ==> after[k] == chats[k]
    ensures after[id].id == before.id && after[id].title == before.title
    ensures after[id].useWebSearch == before.useWebSearch
    ensures after[id].messages == before.messages + [u, answer]
  {
    assert after[id].messages == before.messages + [u] + [answer];
  }

  /** Either reply path appends the one answer `SendAnswer` names to the chat `id` and changes nothing else. */
  lemma ReplyAppendsAnswer(chats: map<string, Chat>, id: string, text: string, replies: Replies)
    requires id in chats
    ensures var after := ReplyOutcome(chats, id, text, replies);
            && OthersUnchanged(chats, after, id)
            && Appended(chats[id], after[id], SendAnswer(text, replies))
  {
    if ImagePrompt(text).Some? {
      ImageOutcomeAppendsReply(chats, id, replies.image);
    } else {
      StreamAppendsAnswer(chats, id, replies.chunks, replies.streamFailed);
    }
  }

  /** The two halves of a send, the user's message and the reply, make up `SendRequest` and `SendOutcome`. */
  lemma SendComposes(chats: map<string, Chat>, active: Option<string>, now: nat, text: string,
                     image: Option<InlineData>, replies: Replies, req: Request, after: map<string, Chat>)
    requires active.Some? ==> active.value in chats
    requires UserParts(text, image) != []
    requires ImagePrompt(text).Some? ==> req == ImageRequest(ImagePrompt(text).value)
    requires var before := TargetChat(chats, active, now);
             ImagePrompt(text).None? ==> req == StreamRequest(before.messages, UserParts(text, image), before.useWebSearch)
    requires after == ReplyOutcome(WithUserMessage(chats, active, now, UserParts(text, image)), TargetId(active, now), text, replies)
    ensures req == SendRequest(chats, active, now, text, image)
    ensures after == SendOutcome(chats, active, now, text, image, replies)
  {
  }

  /** The sidebar's list of `chats`, read through `order` as `Object.values` does, then sorted. */
  function ChatListOf(chats: map<string, Chat>, order: seq<string>): (cs: seq<Chat>)
    requires forall i :: 0 <= i < |order| ==> order[i] in chats
    requires forall k :: k in chats ==> k in order
    requires forall i, j :: 0 <= i < j < |order| ==> order[i] != order[j]
    ensures forall c :: c in cs <==> c in chats.Values
    ensures |cs| == |chats|
    ensures forall i, j :: 0 <= i < j < |cs| ==> IdRank(cs[i].id) >= IdRank(cs[j].id)
  {
    var values := ValuesInOrder(chats, order);
    ValuesCovered(chats, order);
    KeysCounted(chats.Keys, order);
    var cs := SortByRecency(values);
    assert |cs| == |multiset(values)|;
    assert forall c :: c in cs <==> c in multiset(values);
    cs
  }

  /** Reading the map through an `order` that lists every key yields exactly its values. */
  lemma ValuesCovered(chats: map<string, Chat>, order: seq<string>)
    requires forall i :: 0 <= i < |order| ==> order[i] in chats
    requires forall k :: k in chats ==> k in order
    ensures forall c :: c in ValuesInOrder(chats, order) <==> c in chats.Values
  {
    var values := ValuesInOrder(chats, order);
    forall c | c in chats.Values ensures c in values {
      var k :| k in chats && chats[k] == c;
      var i :| 0 <= i < |order| && order[i] == k;
      assert values[i] == c;
    }
  }

  /** A key order that lists every key exactly once is as long as the set of keys. */
  lemma {:induction false} KeysCounted(keys: set<string>, order: seq<string>)
    requires forall i :: 0 <= i < |order| ==> order[i] in keys
    requires forall k :: k in keys ==> k in order
    requires forall i, j :: 0 <= i < j < |order| ==> order[i] != order[j]
    ensures |keys| == |order|
  {
    if order != [] {
      var last := order[|order| - 1];
      var init := order[..|order| - 1];
      forall k | k in keys - {last} ensures k in init {
        var i :| 0 <= i < |order| && order[i] == k;
        assert i < |order| - 1;
        assert init[i] == k;
      }
      KeysCounted(keys - {last}, init);
    } else {
      assert keys == {};
    }
  }

  /** A chat whose id ranks above every other chat's heads the list (a chat just created, say). */
  lemma NewestListedFirst(chats: map<string, Chat>, order: seq<string>, id: string)
    requires forall i :: 0 <= i < |order| ==> order[i] in chats
    requires forall k :: k in chats ==> k in order
    requires forall i, j :: 0 <= i < j < |order| ==> order[i] != order[j]
    requires forall k :: k in chats ==> chats[k].id == k
    requires id in chats
    requires forall k :: k in chats && k != id ==> IdRank(k) < IdRank(id)
    ensures var cs := ChatListOf(chats, order); |cs| > 0 && cs[0] == chats[id]
  {
    var cs := ChatListOf(chats, order);
    assert chats[id] in chats.Values;
    var j :| 0 <= j < |cs| && cs[j] == chats[id];
    assert cs[0] in chats.Values;
    var k :| k in chats && chats[k] == cs[0];
    if j > 0 {
      assert IdRank(cs[0].id) >= IdRank(cs[j].id);
      assert k == id;
    }
  }

  class ChatContainer {
    var allChats: map<string, Chat>
    /** The ids in insertion order, the order `Object.values(allChats)` lists the chats in. */
    var order: seq<string>
    var activeChatId: Option<string>
    var isSidebarOpen: bool
    var isGenerating: bool

    ghost predicate Valid()
      reads this`allChats, this`order, this`activeChatId
    {
      && (forall k :: k in allChats ==> allChats[k].id == k)
      && (activeChatId.Some? ==> activeChatId.value in allChats && activeChatId.value != "")
      && (forall i :: 0 <= i < |order| ==> order[i] in allChats)
      && (forall k :: k in allChats ==> k in order)
      && (forall i, j :: 0 <= i < j < |order| ==> order[i] != order[j])
    }

    /** The component's first render, before anything is loaded. */
    constructor ()
      ensures Valid()
      ensures allChats == map[] && order == [] && activeChatId == None
      ensures !isSidebarOpen && !isGenerating
    {
      allChats := map[];
      order := [];
      activeChatId := None;
      isSidebarOpen := false;
      isGenerating := false;
    }

    /** `setAllChats(prev => ({ ...prev, [id]: chat }))`. */
    method PutChat(id: string, chat: Chat)
      requires Valid() && chat.id == id
      modifies this`allChats, this`order
      ensures Valid()
      ensures allChats == old(allChats)[id := chat]
      ensures order == if id in old(allChats) then old(order) else old(order) + [id]
    {
      if id !in allChats {
        order := order + [id];
      }
      allChats := allChats[id := chat];
    }

    /** `createNewChat`: add an empty chat named "New Chat", make it active, close the sidebar. */
    method CreateNewChat(now: nat)
      requires Valid()
      modifies this
      ensures Valid()
      ensures allChats == old(allChats)[ChatId(now) := NewChat(now)]
      ensures order == if ChatId(now) in old(allChats) then old(order) else old(order) + [ChatId(now)]
      ensures activeChatId == Some(ChatId(now)) && !isSidebarOpen
      ensures isGenerating == old(isGenerating)
    {
      var id := ChatId(now);
      PutChat(id, NewChat(now));
      activeChatId := Some(id);
      isSidebarOpen := false;
    }

    /** The title request's callback: `{ ...prev[id], title }`. */
    method ApplyTitle(id: string, title: string)
      requires Valid() && id in allChats
      modifies this`allChats
      ensures Valid()
      ensures allChats == old(allChats)[id := old(allChats)[id].(title := title)]
    {
      allChats := allChats[id := allChats[id].(title := title)];
    }

    /** `setIsGenerating(true)` and the placeholder updater, the common start of both reply paths. */
    method BeginReply(id: string)
      requires Valid() && id in allChats
      modifies this`allChats, this`isGenerating
      ensures Valid() && isGenerating
      ensures allChats == AddPlaceholder(old(allChats), id)
      ensures LastIsModel(allChats, id) && LastMessage(allChats[id]) == Placeholder
      ensures order == old(order) && activeChatId == old(activeChatId)
    {
      isGenerating := true;
      allChats := AddPlaceholder(allChats, id);
    }

    /**
     * `handleGenerateImage`: raise the flag, append the placeholder, and replace it
     * with the picture, or with the apology when the API returned nothing.
     */
    method GenerateImage(prompt: string, id: string, image: Option<string>) returns (req: Request)
      requires Valid() && id in allChats
      modifies this`allChats, this`isGenerating
      ensures Valid()
      ensures req == ImageRequest(prompt)
      ensures allChats == ImageOutcome(old(allChats), id, image)
      ensures !isGenerating
      ensures order == old(order) && activeChatId == old(activeChatId)
    {
      BeginReply(id);
      req := ImageRequest(prompt);
      allChats := SetLastMessage(allChats, id, ImageReply(image));
      isGenerating := false;
    }

    /**
     * The first half of `handleSendMessage`: pick the active chat, or open a new one
     * named "New Chat" when none is active, append the user's message and make that
     * chat active.
     */
    method AddUserMessage(parts: seq<Part>, now: nat) returns (id: string, chatToUpdate: Chat)
      requires Valid()
      modifies this`allChats, this`order, this`activeChatId
      ensures Valid()
      ensures id == TargetId(old(activeChatId), now) && activeChatId == Some(id) && id in allChats
      ensures chatToUpdate == TargetChat(old(allChats), old(activeChatId), now)
      ensures allChats == WithUserMessage(old(allChats), old(activeChatId), now, parts)
      ensures order == if id in old(allChats) then old(order) else old(order) + [id]
    {
      if activeChatId.None? {
        id := ChatId(now);
        chatToUpdate := NewChat(now);
      } else {
        id := activeChatId.value;
        chatToUpdate := allChats[id];
      }
      PutChat(id, AppendMessage(chatToUpdate, UserMessage(parts)));
      activeChatId := Some(id);
    }

    /**
     * `handleSendMessage`: build the user's message, open a chat if none is active,
     * append the message, then either take the image path or stream the answer
     * into a MODEL placeholder, patching it after every chunk.
     */
    method SendMessage(text: string, image: Option<InlineData>, now: nat, replies: Replies)
      returns (req: Request, titleRequested: bool)
      requires Valid()
      modifies this`allChats, this`order, this`activeChatId, this`isGenerating
      ensures Valid()
      ensures var sent := UserParts(text, image) != [];
              && req == SendRequest(old(allChats), old(activeChatId), now, text, image)
              && allChats == SendOutcome(old(allChats), old(activeChatId), now, text, image, replies)
              && activeChatId == (if sent then Some(TargetId(old(activeChatId), now)) else old(activeChatId))
              && order == (if sent && TargetId(old(activeChatId), now) !in old(allChats)
                           then old(order) + [TargetId(old(activeChatId), now)] else old(order))
              && isGenerating == (if sent then false else old(isGenerating))
              && titleRequested == (sent && old(activeChatId).None? && text != "")
    {
      var parts := UserParts(text, image);
      if parts == [] {
        return NoRequest, false;
      }
      titleRequested := activeChatId.None? && text != "";
      ghost var chats, active := allChats, activeChatId;
      var id, chatToUpdate := AddUserMessage(parts, now);
      req := Reply(id, text, parts, chatToUpdate, replies);
      SendComposes(chats, active, now, text, image, replies, req, allChats);
    }

    /**
     * The second half of `handleSendMessage`: a message that asks for a picture goes
     * to the image path; any other is answered by a stream to the chat's history.
     */
    method Reply(id: string, text: string, parts: seq<Part>, chatToUpdate: Chat, replies: Replies)
      returns (req: Request)
      requires Valid() && id in allChats
      modifies this`allChats, this`isGenerating
      ensures Valid() && !isGenerating
      ensures ImagePrompt(text).Some? ==>
                req == ImageRequest(ImagePrompt(text).value)
      ensures ImagePrompt(text).None? ==>
                req == StreamRequest(chatToUpdate.messages, parts, chatToUpdate.useWebSearch)
      ensures allChats == ReplyOutcome(old(allChats), id, text, replies)
      ensures order == old(order) && activeChatId == old(activeChatId)
    {
      var prompt := ImagePrompt(text);
      if prompt.Some? {
        req := GenerateImage(prompt.value, id, replies.image);
      } else {
        req := StreamAnswer(id, parts, chatToUpdate, replies);
      }
    }

    /**
     * The streaming path of `handleSendMessage`: raise the flag, append the placeholder,
     * ask for a stream to the history from before the user's message, read it, and
     * clear the flag.
     */
    method StreamAnswer(id: string, parts: seq<Part>, chatToUpdate: Chat, replies: Replies)
      returns (req: Request)
      requires Valid() && id in allChats
      modifies this`allChats, this`isGenerating
      ensures Valid() && !isGenerating
      ensures req == StreamRequest(chatToUpdate.messages, parts, chatToUpdate.useWebSearch)
      ensures allChats == StreamOutcome(AddPlaceholder(old(allChats), id), id, replies.chunks, replies.streamFailed)
      ensures order == old(order) && activeChatId == old(activeChatId)
    {
      BeginReply(id);
      req := StreamRequest(chatToUpdate.messages, parts, chatToUpdate.useWebSearch);
      StreamReply(id, replies.chunks, replies.streamFailed);
      isGenerating := false;
    }

    /**
     * The streaming half of `handleSendMessage`: read the chunks in order, patch the
     * placeholder with the text so far after each one and collect the citations, then
     * attach them, or replace the text with the apology when the stream throws.
     */
    method StreamReply(id: string, chunks: seq<StreamChunk>, failed: bool)
      requires Valid() && LastIsModel(allChats, id) && LastMessage(allChats[id]) == Placeholder
      modifies this`allChats
      ensures Valid()
      ensures allChats == StreamOutcome(old(allChats), id, chunks, failed)
      ensures order == old(order) && activeChatId == old(activeChatId) && isGenerating == old(isGenerating)
    {
      ghost var start := allChats;
      var fullResponse := "";
      var grounding: seq<GroundingChunk> := [];
      var i := 0;
      while i < |chunks|
        invariant 0 <= i <= |chunks|
        invariant fullResponse == StreamText(chunks[..i])
        invariant grounding == DedupByUri(StreamCitations(chunks[..i]))
        invariant allChats == AfterChunks(start, id, chunks[..i])
      {
        var chunk := chunks[i];
        ChunkStep(start, id, chunks, i);
        fullResponse := fullResponse + ChunkText(chunk);
        var incoming := chunk.groundingChunks.GetOr([]);
        AddAllConcat([], StreamCitations(chunks[..i]), incoming);
        if chunk.groundingChunks.Some? {
          grounding := MergeGroundingChunks(grounding, incoming);
        }
        allChats := SetLastParts(allChats, id, [TextPart(fullResponse)]);
        i := i + 1;
      }
      assert chunks[..i] == chunks;

      if failed {
        allChats := SetLastParts(allChats, id, [TextPart(StreamErrorReply)]);
      } else {
        allChats := SetLastGrounding(allChats, id, AttachedCitations(grounding));
      }
      StreamLeavesModelAnswer(start, id, chunks, failed);
    }

    /** `activeChatId ? allChats[activeChatId] : null`. */
    function ActiveChat(): (c: Option<Chat>)
      reads this
      requires Valid()
      ensures c.Some? <==> activeChatId.Some?
      ensures c.Some? ==> c.value in allChats.Values && c.value.id == activeChatId.value
    {
      if activeChatId.Some? then Some(allChats[activeChatId.value]) else None
    }

    /** The sidebar's list: every chat exactly once, the newest id first. */
    function ChatList(): (cs: seq<Chat>)
      reads this
      requires Valid()
      ensures forall c :: c in cs <==> c in allChats.Values
      ensures |cs| == |allChats|
      ensures forall i, j :: 0 <= i < j < |cs| ==> IdRank(cs[i].id) >= IdRank(cs[j].id)
    {
      ChatListOf(allChats, order)
    }
  }
}
