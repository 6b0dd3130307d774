# Elix chat state, modelled in Dafny

Elix is a React chat client for a generative-language API. This project models two parts of it.

The first is the state reconciliation of the chat container (`components/Chat.tsx`):
- sending a message, which builds the user's parts, opens a chat when none is active, and appends the message;
- deciding whether the message asks for a picture, using the regular expression at line 121;
- the MODEL-placeholder protocol. An empty MODEL message is appended. It is patched with the running text after every stream chunk, and the de-duplicated web citations are attached at the end. Alternatively it is replaced by the picture or by an apology;
- creating a chat, and setting a chat's title once it arrives;
- the sidebar's chat list, sorted by the number in the chat id.

The second is the input and display rules of the chat view (`components/ChatView.tsx`):
- the send guard and the reset after a send;
- dictation;
- the attached picture's data;
- the download file name;
- the predicates behind the header title, the loading dots and the send button.

Modules, one per file:
- `Wrappers` holds `Option`.
- `Text` holds the JavaScript string built-ins the code relies on:
  - the `\s` / `trim` whitespace set and the line terminators;
  - `trim`;
  - `split(sep)[1]`, which is undefined without a separator;
  - the decimal rendering of `Date.now()`;
  - `parseInt` of a digit prefix.
- `Types` holds the records of `types.ts`.
- `ImageIntent` holds the hand-written matcher for the picture request. It is proved sound and complete against a declarative statement of the regular expression (`RegexMatch`). Case is ignored by lowering ASCII letters. That is exact, because the pattern's words are ASCII and `/i` without the `u` flag folds no other character onto an ASCII letter.
- `Grounding` holds the citation de-duplication loop and its specification.
- `ChatState` holds the `setAllChats` updaters as pure functions on the map of chats, what the image and stream paths leave behind, the chat ids and the sort.
- `ChatComponent` holds the component as a class, `ChatContainer`. Its fields are the state hooks, and its methods are the handlers. `SendMessage` is split the way the handler runs: `AddUserMessage`, then `Reply`, which takes the image path (`GenerateImage`) or the stream path (`StreamAnswer`: `BeginReply`, then `StreamReply`). `StreamReply` runs the stream loop, with invariants tying it to the specification functions of `ChatState`.
- `ChatView` holds the view's pure rules, and the class `ChatViewState` for its own state hooks.

The model API is not called:
- the stream is a finite sequence of chunks, followed or not by a failure;
- the picture is an `Option<string>`;
- the clock value behind `chat_<Date.now()>` is a parameter;
- the title request is returned as a flag, and its answer is applied by `ApplyTitle`.

Each `setAllChats` updater is one atomic state transition. The source patches `chat.messages[last]` in place. Here that is "replace the element at index |messages|-1" over sequences, and each updater's contract states that the earlier messages and the other chats stay as they were.

## Model

| member | source | states |
|---|---|---|
| Text.Trim | components/Chat.tsx:122 | `trim` removes exactly the leading and trailing whitespace: the result is a slice with only whitespace cut on either side, it neither starts nor ends with whitespace, and it is empty iff the text is all whitespace |
| Text.TrimIdempotent | components/Chat.tsx:122 | trimming an already trimmed text changes nothing |
| Text.SecondField | components/Chat.tsx:205 | `split(sep)[1]` is undefined iff the separator does not occur; otherwise it holds no separator and is shorter than the input |
| Text.SecondFieldOf | components/ChatView.tsx:91 | `split(sep)[1]` of `a sep b rest` is exactly `b` when `a` and `b` hold no separator and `rest` is empty or starts with one |
| Text.NatToString | components/Chat.tsx:29 | the decimal rendering of `Date.now()` is non-empty, all digits, without a leading zero |
| Text.NatToStringRoundTrip | components/Chat.tsx:29 | reading the rendered digits back gives the number |
| Text.ParseIntPrefix | components/Chat.tsx:205 | on the texts an id gives it, `parseInt` yields no number iff the text is empty or does not start with a digit (the value read is stated by `Text.ParseNatToString`) |
| Text.ParseNatToString | components/Chat.tsx:205 | `parseInt` of a rendered number followed by a non-digit gives that number back |
| Text.NatToStringInjective | components/Chat.tsx:29 | distinct clock values render differently |
| ChatState.UserParts | components/Chat.tsx:85-88 | the parts are empty iff there is neither a picture nor text; otherwise the picture part comes first and the text part last, one of each at most |
| ChatState.AppendMessage | components/Chat.tsx:107 | the message becomes the single new last element; earlier messages, id, title and web-search switch are unchanged |
| ChatState.ReplaceLast | components/Chat.tsx:64 | only the last message is replaced; every earlier message is unchanged |
| ChatState.AddPlaceholder | components/Chat.tsx:132-139 | when the chat exists an empty MODEL message is appended and becomes the last; no other chat changes; a missing chat leaves the map unchanged |
| ChatState.SetLastParts | components/Chat.tsx:158-168 | when the last message is the MODEL's its parts are replaced and everything else is kept; otherwise nothing changes |
| ChatState.SetLastGrounding | components/Chat.tsx:172-182 | when the last message is the MODEL's only its citations are replaced; otherwise nothing changes |
| ChatState.SetLastMessage | components/Chat.tsx:60-66 | the image path replaces the last message whatever its role; a chat without messages is left unchanged; no other chat changes |
| ChatState.ChatId | components/Chat.tsx:29 | a new chat's id is `chat_` followed by the decimal digits of the clock value |
| ChatState.NewChat | components/Chat.tsx:30-35 | a new chat has that id, the title "New Chat", no messages and web search on |
| ChatState.ImageReply | components/Chat.tsx:57-77 | the reply is a single MODEL part: an `image/png` picture iff the API returned a non-empty string, otherwise the text "Sorry, I couldn't create that image." |
| ChatState.ImageOutcomeAppendsReply | components/Chat.tsx:46-78 | the image path leaves the chat's messages plus exactly the image reply, and no other chat changes |
| ChatState.AttachedCitations | components/Chat.tsx:178 | citations are attached iff the kept list is non-empty, and then the list itself |
| ChatState.ChunkText | components/Chat.tsx:148 | `fullResponse += chunk.text` appends the chunk's text, or the string "undefined" when the chunk has none |
| ChatState.AfterChunksPatchesLast | components/Chat.tsx:147-169 | after each chunk the MODEL's last message holds exactly the concatenated text so far, earlier messages and other chats are untouched; without a MODEL last message nothing changes |
| ChatState.StreamLeavesModelAnswer | components/Chat.tsx:141-197 | from the placeholder a finished stream leaves the whole text with the de-duplicated citations (none when empty), and a failed one the text "Sorry, I encountered an error.", with earlier messages untouched |
| ChatState.StreamAppendsAnswer | components/Chat.tsx:132-197 | the stream path, placeholder included, leaves the chat's messages plus exactly the streamed answer (or the apology), and no other chat changes |
| ChatState.IdRank | components/Chat.tsx:205 | the number the sort reads from an id is never below -1, and it is -1 (no number) iff the id has no `_` or the text after its first `_` does not start with a digit |
| ChatState.ChatIdRank | components/Chat.tsx:205 | the number the sort reads from `chat_<now>` is `now` |
| ChatState.ChatIdsDistinct | components/Chat.tsx:29 | chats created at different clock values get different ids |
| ChatState.InsertDescending | components/Chat.tsx:205 | inserting keeps exactly the same chats plus the new one |
| ChatState.InsertKeepsSorted | components/Chat.tsx:205 | inserting into a list sorted newest first keeps it sorted |
| ChatState.SortDescending | components/Chat.tsx:205 | the sorted list is a permutation of the input and is ordered by descending rank |
| ChatState.SortByRecency | components/Chat.tsx:205 | the chat list is a permutation of the chats ordered by descending numeric id suffix |
| ChatState.ValuesInOrder | components/Chat.tsx:205 | `Object.values` lists, in key insertion order, the chat of each key |
| Grounding.MergeGroundingChunks | components/Chat.tsx:150-154 | the loop over one chunk's citations keeps what the left fold `AddAll` keeps |
| Grounding.AddAllExtends | components/Chat.tsx:150-154 | merging only appends: earlier kept citations stay in place, and the kept list stays free of missing and repeated URIs |
| Grounding.AddAllConcat | components/Chat.tsx:147-155 | merging chunk by chunk is merging all the citations at once |
| Grounding.DedupSeen | components/Chat.tsx:151 | a URI is among the kept citations iff it is non-empty and some citation carries it |
| Grounding.DedupFirstSeen | components/Chat.tsx:151-152 | every kept citation is the first one in the input with its URI, in input order |
| Grounding.DedupWellFormed | components/Chat.tsx:151-152 | every kept citation has a URI and no two share one |
| ImageIntent.MatchImageRequest | components/Chat.tsx:121-122 | a reported match satisfies the regular expression, and its fifth group runs to the end of the text or to a line break |
| ImageIntent.ImageRequestSubject | components/Chat.tsx:124 | a reported fifth group is non-empty and holds no line break |
| ImageIntent.MatchComplete | components/Chat.tsx:121-122 | whenever the expression matches, the matcher reports a match with the same `of`/`about`, whose fifth group starts no earlier than in any match, and runs at least as far as any match starting at the same place (the backtracking engine's greedy choice) |
| ImageIntent.ImagePromptIff | components/Chat.tsx:121-125 | a message yields a picture prompt iff its trimmed text matches the expression |
| ImageIntent.RedFoxIsImageRequest | components/Chat.tsx:121-125 | "create an image of a red fox" asks for a picture of "a red fox" |
| ImageIntent.FoxQuestionIsNotImageRequest | components/Chat.tsx:121-124 | "tell me about foxes" goes to the stream |
| ChatComponent.SendAppendsExchange | components/Chat.tsx:84-200 | a send with something to say appends exactly the user's message and the MODEL's answer to the target chat, keeps its id, title and switch, and adds or changes no other chat |
| ChatComponent.ReplyAppendsAnswer | components/Chat.tsx:120-200 | either reply path appends exactly one MODEL answer (picture, apology, streamed text with citations, or error text) and changes nothing else |
| ChatComponent.ChatListOf | components/Chat.tsx:205 | the sidebar lists exactly the chats of the map, as many entries as chats (each once), newest id first |
| ChatComponent.NewestListedFirst | components/Chat.tsx:205 | a chat whose id number exceeds every other's heads the list |
| ChatComponent.ChatContainer.constructor | components/Chat.tsx:10-13 | the initial state has no chats, no active chat, a closed sidebar and no generation |
| ChatComponent.ChatContainer.PutChat | components/Chat.tsx:36 | `{ ...prev, [id]: chat }` sets one entry; a new key is listed last |
| ChatComponent.ChatContainer.CreateNewChat | components/Chat.tsx:28-39 | adds "New Chat" with id `chat_<now>`, no messages and web search on, lists a new id last (keeps the order when the id exists), makes it active and closes the sidebar |
| ChatComponent.ChatContainer.ApplyTitle | components/Chat.tsx:112-117 | only the title of that chat changes |
| ChatComponent.ChatContainer.BeginReply | components/Chat.tsx:130-139 | sets the generating flag and appends the MODEL placeholder as the last message; the order and the active chat are unchanged |
| ChatComponent.ChatContainer.GenerateImage | components/Chat.tsx:46-82 | requests the picture and leaves the chat with the image reply in place of the placeholder, the flag cleared, the order and the active chat unchanged |
| ChatComponent.ChatContainer.AddUserMessage | components/Chat.tsx:90-108 | appends the user message to the active chat, or to a new chat `chat_<now>` that becomes active and is listed last, and returns the chat as it was before |
| ChatComponent.ChatContainer.SendMessage | components/Chat.tsx:84-201 | an empty send changes nothing and requests nothing; otherwise the state becomes `SendOutcome`, the request goes out with the history from before the user's message, the title is requested only for a new chat with text, and the flag ends cleared; a newly opened chat is listed last and otherwise the order is kept; the sidebar is not among the fields it may write |
| ChatComponent.ChatContainer.Reply | components/Chat.tsx:120-142 | a picture request takes the image path with the trimmed fifth group as its prompt and starts no stream; anything else streams; the order and the active chat are unchanged |
| ChatComponent.ChatContainer.StreamAnswer | components/Chat.tsx:130-199 | the stream path sends the history, the user's parts and the chat's web-search switch, leaves the state `StreamOutcome` of the placeholder-extended chats describes, and clears the flag |
| ChatComponent.ChatContainer.StreamReply | components/Chat.tsx:141-197 | the loop leaves the state `StreamOutcome` describes: the running text after each chunk, then the citations or the apology; the order, the active chat and the flag are unchanged |
| ChatComponent.ChatContainer.ChatList | components/Chat.tsx:205 | the list holds exactly the stored chats, one entry per chat, ordered by descending id number |
| ChatComponent.ChatContainer.ActiveChat | components/Chat.tsx:204 | there is an active chat iff an id is active, and it is the chat stored under that id |
| ChatView.SendBlocked | components/ChatView.tsx:54 | sending is refused iff generating, or no picture is attached and the input has no visible character |
| ChatView.ShowSendButton | components/ChatView.tsx:204 | the button shows iff not generating and a picture is attached or the input has a visible character |
| ChatView.SendButtonIffSendAllowed | components/ChatView.tsx:204 | the button shows exactly when pressing it would send |
| ChatView.AllowedSendHasParts | components/ChatView.tsx:54-55 | a send the view lets through always gives the container at least one part |
| ChatView.AppendTranscript | components/ChatView.tsx:74 | with nothing typed the input becomes the transcript; otherwise the typed text, a space, then the transcript |
| ChatView.AppendTranscriptTwice | components/ChatView.tsx:74 | two dictations read as one dictation of both joined by a space, once anything has been said or typed |
| ChatView.DownloadExtension | components/ChatView.tsx:104 | the extension is never empty and holds no `/`; without a `/` in the type it is `png` |
| ChatView.DownloadExtensionOf | components/ChatView.tsx:104 | for `kind/subtype...` the extension is the subtype, or `png` when the subtype is empty (`image/`) |
| ChatView.DownloadFileName | components/ChatView.tsx:105 | the name starts with `elix-generated-image-` and ends with a dot followed by the extension |
| ChatView.DownloadFileNameParts | components/ChatView.tsx:105 | the name is `elix-generated-image-`, the clock value (read back by `parseInt`), a dot, then the extension |
| ChatView.ExtractBase64 | components/ChatView.tsx:91 | the data is undefined iff the URL has no comma; otherwise it is comma-free and shorter than the URL |
| ChatView.ExtractBase64OfDataUrl | components/ChatView.tsx:91 | the data of `data:<type>;base64,<data>` comes back unchanged |
| ChatView.ShowLoadingIndicator | components/ChatView.tsx:141-149 | the dots show iff generating, the message is the last, it is the MODEL's, and its first part is missing, a picture, or text without a visible character |
| ChatView.PlaceholderShowsLoading | components/ChatView.tsx:141-149 | while generating, the freshly appended placeholder shows the dots |
| ChatView.StreamedTextHidesLoading | components/ChatView.tsx:141-149 | while generating, a streamed answer shows the dots iff its text has no visible character |
| ChatView.HeaderTitle | components/ChatView.tsx:117-123 | the header is never empty, it is either "Elix" or the chat's title, and it is the title iff there is a chat whose title is non-empty and not "New Chat"; otherwise it is "Elix" |
| ChatView.NewChatShowsAppName | components/ChatView.tsx:117-123 | no chat, or a chat just created, shows "Elix" |
| ChatView.ChatViewState.constructor | components/ChatView.tsx:43-45 | the view starts with empty input, no picture, not listening |
| ChatView.ChatViewState.OnInputChange | components/ChatView.tsx:196 | typing replaces the input |
| ChatView.ChatViewState.HandleSend | components/ChatView.tsx:53-61 | a refused send changes nothing and passes nothing on; otherwise the untrimmed input and the picture's type and data are passed on, and input, picture and file input are cleared |
| ChatView.ChatViewState.HandleMicClick | components/ChatView.tsx:63-71 | without speech recognition nothing happens; otherwise listening is toggled |
| ChatView.ChatViewState.OnSpeechResult | components/ChatView.tsx:72-75 | the input becomes `AppendTranscript` of the typed text and the transcript |
| ChatView.ChatViewState.OnSpeechStopped | components/ChatView.tsx:76-82 | an error or the end of recognition stops listening |
| ChatView.ChatViewState.HandleImageChange | components/ChatView.tsx:85-98 | with no file nothing changes; otherwise the picture keeps the file's type, name and the data after the data URL's first comma |

## Left out

- Loading and saving the chats in `localStorage` and `JSON.parse` (components/Chat.tsx:15-26): browser storage.
- `selectChat` (components/Chat.tsx:41-44) and the sidebar toggle (components/Chat.tsx:222): plain field assignments with nothing to state beyond the assignment.
- The race between the background title request and the stream, and the single `isGenerating` flag shared by concurrent sends (components/Chat.tsx:111-118, 130, 199). The model is sequential. It states only that the title is requested for a new chat with text, and `ApplyTitle` applies an answer whenever it arrives.
- React's batching and re-rendering, and the stale `allChats` closure a handler reads. Each updater is one atomic transition on the current state.
- Aliasing: the source's updaters assign into message objects shared with the previous state. The model keeps values and states what the new state is, not which objects are shared.
- services/geminiService.ts is not part of this model. The stream, the picture and the title are inputs, and the requests made are returned (`Request`).
- ChatComponent.ChatContainer.SendMessage: a stream that throws before its first chunk and one that throws later are both "the chunks received, then a failure". An error thrown by `generateImage` and a `null` result are both `None`.
- Text.ParseIntPrefix: leading whitespace, a sign and radix prefixes are not modelled, because the only text it reads is the part of a `chat_<digits>` id after the `_`.
- ChatState.IdRank ignores `parseInt`'s leading whitespace, sign and radix prefixes, because ids are always `chat_<digits>`. A suffix that is not a number ranks -1. There JavaScript's comparator returns NaN and the order is left to the engine.
- ChatState.SortByRecency: the stability of `Array.prototype.sort` for equal ranks is not stated.
- The shape of a grounding chunk (`web.uri`, `web.title`) follows the model API's responses, because `types.ts` does not declare `GroundingChunk`. `Part` is modelled as text or picture, the two forms the code builds, not as a record where both may be absent or present.
- The `if (fileInputRef.current)` check (components/ChatView.tsx:58): the file input is taken to exist once the view is mounted.
- Speech recognition, `FileReader`, link creation and clicking, `scrollIntoView` and `marked.parse` (components/ChatView.tsx:15-23, 89-98, 102-108, 50, 170). These are browser and foreign APIs. Their results (availability, transcript, data URL, clock value) are parameters.
- The welcome screen, icons, `Sidebar.tsx` and `App.tsx`: presentation with no logic.
