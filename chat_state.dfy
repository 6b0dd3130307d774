/**
 * The state transitions of the chat container (`components/Chat.tsx`), each one a
 * `setAllChats` updater applied atomically to the map from chat id to chat:
 * building the user message, appending messages, patching the last message in
 * place, and the outcomes of the streaming and image paths. Also the chat ids and
 * the order of the chat list.
 */
module ChatState {
  import opened Wrappers
  import opened Text
  import opened Types
  import opened Grounding

  const NewChatTitle := "New Chat"
  const StreamErrorReply := "Sorry, I encountered an error."
  const ImageErrorReply := "Sorry, I couldn't create that image."
  const GeneratedImageMimeType := "image/png"

  /** `chat_${Date.now()}`. */
  function ChatId(now: nat): (id: string)
    ensures |id| > 5 && id[..5] == "chat_" && AllDigits(id[5..]) && id[5..] == NatToString(now)
  {
    "chat_" + NatToString(now)
  }

  /** The record `createNewChat` and a first send both create. */
  function NewChat(now: nat): (c: Chat)
    ensures c.id == ChatId(now) && c.title == NewChatTitle && c.messages == [] && c.useWebSearch
  {
    Chat(ChatId(now), NewChatTitle, [], true)
  }

  /** The parts of the user's message: the image first if any, then the text if non-empty. */
  function UserParts(text: string, image: Option<InlineData>): (parts: seq<Part>)
    ensures parts == [] <==> image.None? && text == ""
    ensures |parts| == (if image.Some? then 1 else 0) + (if text != "" then 1 else 0)
    ensures image.Some? ==> parts[0] == ImagePart(image.value)
    ensures text != "" ==> parts[|parts| - 1] == TextPart(text)
  {
    (if image.Some? then [ImagePart(image.value)] else []) + (if text != "" then [TextPart(text)] else [])
  }

  function UserMessage(parts: seq<Part>): Message {
    Message(User, parts, None)
  }

  /** The empty MODEL message that stands for an answer still to come. */
  const Placeholder: Message := Message(Model, [TextPart("")], None)

  function LastMessage(chat: Chat): Message
    requires |chat.messages| > 0
  {
    chat.messages[|chat.messages| - 1]
  }

  /** `after` is `before` with only its last message replaced by `m`. */
  ghost predicate LastReplaced(before: Chat, after: Chat, m: Message) {
    && after.id == before.id && after.title == before.title && after.useWebSearch == before.useWebSearch
    && |before.messages| > 0 && |after.messages| == |before.messages|
    && after.messages[..|after.messages| - 1] == before.messages[..|before.messages| - 1]
    && after.messages[|after.messages| - 1] == m
  }

  /** `after` is `before` with `m` added after its existing messages. */
  ghost predicate Appended(before: Chat, after: Chat, m: Message) {
    && after.id == before.id && after.title == before.title && after.useWebSearch == before.useWebSearch
    && after.messages == before.messages + [m]
  }

  /** `{ ...chat, messages: [...chat.messages, m] }`. */
  function AppendMessage(chat: Chat, m: Message): (c: Chat)
    ensures Appended(chat, c, m)
    ensures c.messages[..|chat.messages|] == chat.messages && |c.messages| == |chat.messages| + 1
  {
    chat.(messages := chat.messages + [m])
  }

  /** `chat.messages[last] = m`. */
  function ReplaceLast(chat: Chat, m: Message): (c: Chat)
    requires |chat.messages| > 0
    ensures LastReplaced(chat, c, m)
    ensures forall i :: 0 <= i < |chat.messages| - 1 ==> c.messages[i] == chat.messages[i]
  {
    chat.(messages := chat.messages[|chat.messages| - 1 := m])
  }

  /** The guard of the stream path's updaters: the chat exists and its last message is the MODEL's. */
  predicate LastIsModel(chats: map<string, Chat>, id: string) {
    id in chats && |chats[id].messages| > 0 && LastMessage(chats[id]).role == Model
  }

  /** Only the chat `id` may differ between the two maps, and it is in both. */
  ghost predicate OthersUnchanged(before: map<string, Chat>, after: map<string, Chat>, id: string) {
    after.Keys == before.Keys && forall k :: k in before && k != id ==> after[k] == before[k]
  }

  /** The placeholder updater: append an empty MODEL message when the chat exists. */
  function AddPlaceholder(chats: map<string, Chat>, id: string): (r: map<string, Chat>)
    ensures OthersUnchanged(chats, r, id)
    ensures id in chats ==> Appended(chats[id], r[id], Placeholder) && LastIsModel(r, id)
    ensures id !in chats ==> r == chats
  {
    if id in chats then chats[id := AppendMessage(chats[id], Placeholder)] else chats
  }

  /** The stream and error updaters: set the last message's parts, if that message is the MODEL's. */
  function SetLastParts(chats: map<string, Chat>, id: string, parts: seq<Part>): (r: map<string, Chat>)
    ensures OthersUnchanged(chats, r, id)
    ensures LastIsModel(chats, id) ==>
              LastReplaced(chats[id], r[id], LastMessage(chats[id]).(parts := parts)) && LastIsModel(r, id)
    ensures !LastIsModel(chats, id) ==> r == chats
  {
    if LastIsModel(chats, id) then
      chats[id := ReplaceLast(chats[id], LastMessage(chats[id]).(parts := parts))]
    else chats
  }

  /** The final updater: attach the citations to the last message, if that message is the MODEL's. */
  function SetLastGrounding(chats: map<string, Chat>, id: string, g: Option<seq<GroundingChunk>>): (r: map<string, Chat>)
    ensures OthersUnchanged(chats, r, id)
    ensures LastIsModel(chats, id) ==>
              LastReplaced(chats[id], r[id], LastMessage(chats[id]).(groundingMetadata := g)) && LastIsModel(r, id)
    ensures !LastIsModel(chats, id) ==> r == chats
  {
    if LastIsModel(chats, id) then
      chats[id := ReplaceLast(chats[id], LastMessage(chats[id]).(groundingMetadata := g))]
    else chats
  }

  /** The image path's updaters: overwrite the last message whatever its role. */
  function SetLastMessage(chats: map<string, Chat>, id: string, m: Message): (r: map<string, Chat>)
    requires id in chats
    ensures OthersUnchanged(chats, r, id)
    ensures |chats[id].messages| > 0 ==> LastReplaced(chats[id], r[id], m)
    ensures |chats[id].messages| == 0 ==> r == chats
  {
    if |chats[id].messages| > 0 then chats[id := ReplaceLast(chats[id], m)] else chats
  }

  /** The message that replaces the image placeholder: the picture, or the apology when none came back. */
  function ImageReply(image: Option<string>): (m: Message)
    ensures m.role == Model && |m.parts| == 1 && m.groundingMetadata.None?
    ensures image.Some? && image.value != "" <==> m.parts[0].ImagePart?
    ensures m.parts[0].ImagePart? ==> m.parts[0].inlineData == InlineData(GeneratedImageMimeType, image.value)
    ensures m.parts[0].TextPart? ==> m.parts[0].text == ImageErrorReply
  {
    if image.Some? && image.value != "" then
      Message(Model, [ImagePart(InlineData(GeneratedImageMimeType, image.value))], None)
    else
      Message(Model, [TextPart(ImageErrorReply)], None)
  }

  /** The image path: the placeholder is appended, then replaced by the reply. */
  function ImageOutcome(chats: map<string, Chat>, id: string, image: Option<string>): map<string, Chat>
    requires id in chats
  {
    var withPlaceholder := AddPlaceholder(chats, id);
    SetLastMessage(withPlaceholder, id, ImageReply(image))
  }

  /** The image path adds exactly one MODEL message, the reply, after the existing ones. */
  lemma ImageOutcomeAppendsReply(chats: map<string, Chat>, id: string, image: Option<string>)
    requires id in chats
    ensures OthersUnchanged(chats, ImageOutcome(chats, id, image), id)
    ensures Appended(chats[id], ImageOutcome(chats, id, image)[id], ImageReply(image))
  {
    var p := AddPlaceholder(chats, id);
    var r := ImageOutcome(chats, id, image);
    var n := |chats[id].messages|;
    assert r[id].messages[..n] == p[id].messages[..n] == chats[id].messages;
  }

  /** `fullResponse += chunk.text`: an absent text is concatenated as the string "undefined". */
  function ChunkText(c: StreamChunk): (t: string)
    ensures c.text.Some? ==> t == c.text.value
    ensures c.text.None? ==> t == "undefined"
  {
    c.text.GetOr("undefined")
  }

  /** The running concatenation of the chunks' texts. */
  function StreamText(chunks: seq<StreamChunk>): string {
    if chunks == [] then "" else StreamText(chunks[..|chunks| - 1]) + ChunkText(chunks[|chunks| - 1])
  }

  /** All grounding chunks the stream carries, in order. */
  function StreamCitations(chunks: seq<StreamChunk>): seq<GroundingChunk> {
    if chunks == [] then []
    else StreamCitations(chunks[..|chunks| - 1]) + chunks[|chunks| - 1].groundingChunks.GetOr([])
  }

  /** `groundingMetadata.length > 0 ? groundingMetadata : undefined`. */
  function AttachedCitations(kept: seq<GroundingChunk>): (g: Option<seq<GroundingChunk>>)
    ensures g.None? <==> kept == []
    ensures g.Some? ==> g.value == kept
  {
    if |kept| > 0 then Some(kept) else None
  }

  /** The map after one stream-updater per chunk, each with the text received so far. */
  function AfterChunks(chats: map<string, Chat>, id: string, chunks: seq<StreamChunk>): map<string, Chat> {
    if chunks == [] then chats
    else SetLastParts(AfterChunks(chats, id, chunks[..|chunks| - 1]), id, [TextPart(StreamText(chunks))])
  }

  /** One more chunk extends the text and the citations, and patches the last message once more. */
  lemma ChunkStep(chats: map<string, Chat>, id: string, chunks: seq<StreamChunk>, i: nat)
    requires i < |chunks|
    ensures StreamText(chunks[..i + 1]) == StreamText(chunks[..i]) + ChunkText(chunks[i])
    ensures StreamCitations(chunks[..i + 1]) == StreamCitations(chunks[..i]) + chunks[i].groundingChunks.GetOr([])
    ensures AfterChunks(chats, id, chunks[..i + 1])
         == SetLastParts(AfterChunks(chats, id, chunks[..i]), id, [TextPart(StreamText(chunks[..i + 1]))])
  {
    assert chunks[..i + 1][..i] == chunks[..i];
  }

  /** The streaming path from the placeholder on: the chunk updates, then the citations or the apology. */
  function StreamOutcome(chats: map<string, Chat>, id: string, chunks: seq<StreamChunk>, failed: bool): map<string, Chat> {
    var streamed := AfterChunks(chats, id, chunks);
    if failed then SetLastParts(streamed, id, [TextPart(StreamErrorReply)])
    else SetLastGrounding(streamed, id, AttachedCitations(DedupByUri(StreamCitations(chunks))))
  }

  /**
   * After each chunk, the MODEL's last message holds exactly the text received so far,
   * and every earlier message is untouched; without that MODEL message nothing changes.
   */
  lemma {:induction false} AfterChunksPatchesLast(chats: map<string, Chat>, id: string, chunks: seq<StreamChunk>)
    ensures OthersUnchanged(chats, AfterChunks(chats, id, chunks), id)
    ensures LastIsModel(chats, id) && chunks != [] ==>
              LastReplaced(chats[id], AfterChunks(chats, id, chunks)[id],
                           LastMessage(chats[id]).(parts := [TextPart(StreamText(chunks))]))
    ensures LastIsModel(chats, id) ==> LastIsModel(AfterChunks(chats, id, chunks), id)
    ensures !LastIsModel(chats, id) ==> AfterChunks(chats, id, chunks) == chats
    decreases |chunks|
  {
    if chunks != [] {
      AfterChunksPatchesLast(chats, id, chunks[..|chunks| - 1]);
    }
  }

  /**
   * A stream that ends leaves the placeholder as the MODEL's answer, after all earlier
   * messages: the whole text with the de-duplicated citations, or the fixed apology
   * after a failure.
   */
  lemma StreamLeavesModelAnswer(chats: map<string, Chat>, id: string, chunks: seq<StreamChunk>, failed: bool)
    requires LastIsModel(chats, id) && LastMessage(chats[id]) == Placeholder
    ensures OthersUnchanged(chats, StreamOutcome(chats, id, chunks, failed), id)
    ensures LastReplaced(chats[id], StreamOutcome(chats, id, chunks, failed)[id], StreamedAnswer(chunks, failed))
  {
    AfterChunksPatchesLast(chats, id, chunks);
    var streamed := AfterChunks(chats, id, chunks);
    var n := |chats[id].messages|;
    assert streamed[id].messages[..n - 1] == chats[id].messages[..n - 1];
    assert chunks == [] ==> StreamText(chunks) == "";
  }

  /** The MODEL message a stream leaves: the apology when it throws, else its whole text and citations. */
  function StreamedAnswer(chunks: seq<StreamChunk>, failed: bool): Message {
    if failed then Message(Model, [TextPart(StreamErrorReply)], None)
    else Message(Model, [TextPart(StreamText(chunks))], AttachedCitations(DedupByUri(StreamCitations(chunks))))
  }

  /** The streaming path, placeholder included, appends exactly the streamed answer and changes no other chat. */
  lemma StreamAppendsAnswer(chats: map<string, Chat>, id: string, chunks: seq<StreamChunk>, failed: bool)
    requires id in chats
    ensures var after := StreamOutcome(AddPlaceholder(chats, id), id, chunks, failed);
            && OthersUnchanged(chats, after, id)
            && Appended(chats[id], after[id], StreamedAnswer(chunks, failed))
  {
    var placed := AddPlaceholder(chats, id);
    StreamLeavesModelAnswer(placed, id, chunks, failed);
    var after := StreamOutcome(placed, id, chunks, failed)[id];
    var n := |placed[id].messages|;
    assert after.messages == after.messages[..n - 1] + [after.messages[n - 1]];
  }

  /** The number behind the id, as the chat list reads it: `parseInt(id.split('_')[1])`, -1 for NaN. */
  function IdRank(id: string): (r: int)
    ensures r >= -1
    ensures r == -1 <==> '_' !in id || var f := SecondField(id, '_').value; f == [] || !IsDigit(f[0])
  {
    match SecondField(id, '_')
    case None => -1
    case Some(f) =>
      match ParseIntPrefix(f)
      case None => -1
      case Some(n) => n
  }

  /** The rank of a created chat is the clock value its id was made from. */
  lemma ChatIdRank(now: nat)
    ensures IdRank(ChatId(now)) == now
  {
    var d := NatToString(now);
    assert ChatId(now) == "chat" + ['_'] + d + [];
    assert '_' !in d;
    SecondFieldOf("chat", '_', d, []);
    ParseNatToString(now, []);
    assert d + [] == d;
  }

  /** Chats created at different times get different ids. */
  lemma ChatIdsDistinct(m: nat, n: nat)
    requires m != n
    ensures ChatId(m) != ChatId(n)
  {
    ChatIdRank(m);
    ChatIdRank(n);
  }

  /** Ranks never increase along the list. */
  ghost predicate SortedDescending(cs: seq<Chat>, rank: Chat -> int) {
    forall i, j :: 0 <= i < j < |cs| ==> rank(cs[i]) >= rank(cs[j])
  }

  /** Insert `c` after every chat of at least its rank, so equal ranks keep their order. */
  function InsertDescending(sorted: seq<Chat>, c: Chat, rank: Chat -> int): (r: seq<Chat>)
    ensures multiset(r) == multiset(sorted) + multiset{c}
    decreases |sorted|
  {
    if sorted == [] || rank(sorted[|sorted| - 1]) >= rank(c) then sorted + [c]
    else
      assert sorted == sorted[..|sorted| - 1] + [sorted[|sorted| - 1]];
      InsertDescending(sorted[..|sorted| - 1], c, rank) + [sorted[|sorted| - 1]]
  }

  lemma {:induction false} InsertKeepsSorted(sorted: seq<Chat>, c: Chat, rank: Chat -> int)
    requires SortedDescending(sorted, rank)
    ensures SortedDescending(InsertDescending(sorted, c, rank), rank)
    decreases |sorted|
  {
    if sorted != [] && rank(sorted[|sorted| - 1]) < rank(c) {
      var init, last := sorted[..|sorted| - 1], sorted[|sorted| - 1];
      assert forall i :: 0 <= i < |init| ==> init[i] == sorted[i];
      InsertKeepsSorted(init, c, rank);
      forall x | x in init ensures rank(x) >= rank(last) {
        var k :| 0 <= k < |init| && init[k] == x;
        assert sorted[k] == x;
      }
      InsertAbove(init, c, rank, rank(last));
      var r0 := InsertDescending(init, c, rank);
      var r := r0 + [last];
      assert InsertDescending(sorted, c, rank) == r;
      forall i, j | 0 <= i < j < |r| ensures rank(r[i]) >= rank(r[j]) {
        assert r[i] == r0[i];
        if j < |r0| {
          assert r[j] == r0[j];
        } else {
          assert r[j] == last && r0[i] in r0;
        }
      }
    }
  }

  /** Inserting into chats ranked at least `bound` a chat ranked at least `bound` keeps that bound. */
  lemma {:induction false} InsertAbove(sorted: seq<Chat>, c: Chat, rank: Chat -> int, bound: int)
    requires forall x :: x in sorted ==> rank(x) >= bound
    requires rank(c) >= bound
    ensures forall x :: x in InsertDescending(sorted, c, rank) ==> rank(x) >= bound
    decreases |sorted|
  {
    if sorted != [] && rank(sorted[|sorted| - 1]) < rank(c) {
      var init := sorted[..|sorted| - 1];
      assert forall x :: x in init ==> x in sorted;
      InsertAbove(init, c, rank, bound);
      var r0 := InsertDescending(init, c, rank);
      var r := r0 + [sorted[|sorted| - 1]];
      assert InsertDescending(sorted, c, rank) == r;
    }
  }

  /** A stable insertion sort, highest rank first. */
  function SortDescending(cs: seq<Chat>, rank: Chat -> int): (r: seq<Chat>)
    ensures multiset(r) == multiset(cs)
    ensures SortedDescending(r, rank)
  {
    if cs == [] then []
    else
      assert cs == cs[..|cs| - 1] + [cs[|cs| - 1]];
      var r0 := SortDescending(cs[..|cs| - 1], rank);
      InsertKeepsSorted(r0, cs[|cs| - 1], rank);
      InsertDescending(r0, cs[|cs| - 1], rank)
  }

  /** The chat list: `Object.values(allChats).sort(...)`, reordered so the newest id comes first. */
  function SortByRecency(cs: seq<Chat>): (r: seq<Chat>)
    ensures multiset(r) == multiset(cs)
    ensures forall i, j :: 0 <= i < j < |r| ==> IdRank(r[i].id) >= IdRank(r[j].id)
  {
    SortDescending(cs, (c: Chat) => IdRank(c.id))
  }

  /** The chats of the map in the order their ids were first inserted. */
  function ValuesInOrder(chats: map<string, Chat>, order: seq<string>): (cs: seq<Chat>)
    requires forall i :: 0 <= i < |order| ==> order[i] in chats
    ensures |cs| == |order| && forall i :: 0 <= i < |order| ==> cs[i] == chats[order[i]]
  {
    seq(|order|, i requires 0 <= i < |order| => chats[order[i]])
  }
}
