/**
 * The input and display rules of the chat view (`components/ChatView.tsx`): the send
 * guard, dictation, the attached picture, the download name, and the predicates that
 * decide what the header, a message bubble and the send button show.
 */
module ChatView {
  import opened Wrappers
  import opened Text
  import opened Types
  import opened ChatState

  /** The mark shown in the header when no title is worth showing. */
  const AppName: string := "Elix"
  const DownloadPrefix: string := "elix-generated-image-"
  const DefaultExtension: string := "png"

  /** The input holds a character other than whitespace. */
  predicate HasVisibleText(input: string) {
    exists k :: 0 <= k < |input| && !IsWhitespace(input[k])
  }

  /** `(!input.trim() && !image) || isGenerating`: the guard under which `handleSend` returns at once. */
  function SendBlocked(input: string, hasImage: bool, isGenerating: bool): (b: bool)
    ensures b <==> isGenerating || (!hasImage && !HasVisibleText(input))
  {
    (Trim(input) == "" && !hasImage) || isGenerating
  }

  /** `(input.trim() || image) && !isGenerating`: when the send button is rendered. */
  function ShowSendButton(input: string, hasImage: bool, isGenerating: bool): (b: bool)
    ensures b <==> !isGenerating && (hasImage || HasVisibleText(input))
  {
    (Trim(input) != "" || hasImage) && !isGenerating
  }

  /** The send button is shown exactly when pressing it would send. */
  lemma SendButtonIffSendAllowed(input: string, hasImage: bool, isGenerating: bool)
    ensures ShowSendButton(input, hasImage, isGenerating) <==> !SendBlocked(input, hasImage, isGenerating)
  {
  }

  /** A message the view lets through always has a part, so the container never drops it. */
  lemma AllowedSendHasParts(input: string, image: Option<InlineData>, isGenerating: bool)
    requires !SendBlocked(input, image.Some?, isGenerating)
    ensures UserParts(input, image) != []
  {
  }

  /** `prev ? `${prev} ${transcript}` : transcript`. */
  function AppendTranscript(prev: string, transcript: string): (r: string)
    ensures prev == "" ==> r == transcript
    ensures prev != "" ==> |r| == |prev| + 1 + |transcript| && r[..|prev|] == prev && r[|prev|] == ' '
                           && r[|prev| + 1..] == transcript
  {
    if prev != "" then prev + " " + transcript else transcript
  }

  /**
   * Two dictations in a row read as one dictation of both texts joined by a space,
   * unless nothing at all has been said or typed before the second.
   */
  lemma AppendTranscriptTwice(prev: string, a: string, b: string)
    requires prev != "" || a != ""
    ensures AppendTranscript(AppendTranscript(prev, a), b) == AppendTranscript(prev, a + " " + b)
  {
    if prev != "" {
      assert AppendTranscript(prev, a) != "";
      assert prev + " " + a + " " + b == prev + " " + (a + " " + b);
    }
  }

  /** `inlineData.mimeType.split('/')[1] || 'png'`. */
  function DownloadExtension(mimeType: string): (ext: string)
    ensures ext != "" && '/' !in ext
    ensures '/' !in mimeType ==> ext == DefaultExtension
  {
    match SecondField(mimeType, '/')
    case None => DefaultExtension
    case Some(e) => if e == "" then DefaultExtension else e
  }

  /**
   * The extension is the subtype of a `type/subtype` MIME type, whatever follows a
   * further `/`; an empty subtype (`image/`, `image//x`) falls back to `png`.
   */
  lemma DownloadExtensionOf(kind: string, subtype: string, rest: string)
    requires '/' !in kind && '/' !in subtype
    requires rest == [] || rest[0] == '/'
    ensures DownloadExtension(kind + "/" + subtype + rest) == if subtype == "" then DefaultExtension else subtype
  {
    SecondFieldOf(kind, '/', subtype, rest);
  }

  /** `elix-generated-image-${Date.now()}.${extension}`, with the clock value `now`. */
  function DownloadFileName(now: nat, mimeType: string): (name: string)
    ensures |name| > |DownloadPrefix| && name[..|DownloadPrefix|] == DownloadPrefix
    ensures var ext := DownloadExtension(mimeType);
            |name| > |ext| && name[|name| - |ext| - 1] == '.' && name[|name| - |ext|..] == ext
  {
    DownloadPrefix + NatToString(now) + "." + DownloadExtension(mimeType)
  }

  /** The clock value and the extension can both be read back from a download's name. */
  lemma DownloadFileNameParts(now: nat, mimeType: string)
    ensures var name := DownloadFileName(now, mimeType);
            var digits := |DownloadPrefix| + |NatToString(now)|;
            && name[..|DownloadPrefix|] == DownloadPrefix
            && ParseIntPrefix(name[|DownloadPrefix|..]) == Some(now)
            && name[digits] == '.'
            && name[digits + 1..] == DownloadExtension(mimeType)
  {
    var d := NatToString(now);
    var ext := DownloadExtension(mimeType);
    var name := DownloadFileName(now, mimeType);
    assert name[|DownloadPrefix|..] == d + ("." + ext);
    ParseNatToString(now, "." + ext);
  }

  /** `(reader.result as string).split(',')[1]`: the data after the first comma, up to the next. */
  function ExtractBase64(dataUrl: string): (data: Option<string>)
    ensures data.None? <==> ',' !in dataUrl
    ensures data.Some? ==> ',' !in data.value && |data.value| < |dataUrl|
  {
    SecondField(dataUrl, ',')
  }

  /** The data of a `data:<type>;base64,<data>` URL comes back unchanged. */
  lemma ExtractBase64OfDataUrl(mimeType: string, data: string)
    requires ',' !in mimeType && ',' !in data
    ensures ExtractBase64("data:" + mimeType + ";base64," + data) == Some(data)
  {
    var head := "data:" + mimeType + ";base64";
    assert ',' !in head;
    assert "data:" + mimeType + ";base64," + data == head + [','] + data + [];
    SecondFieldOf(head, ',', data, []);
  }

  /** `!msg.parts[0]?.text || msg.parts[0].text.trim() === ''`: no first part, a picture first, or blank text. */
  predicate FirstTextBlank(m: Message) {
    |m.parts| == 0 || m.parts[0].ImagePart? || Trim(m.parts[0].text) == ""
  }

  /** The loading dots replace the bubble of the message at `index`. */
  function ShowLoadingIndicator(isGenerating: bool, messages: seq<Message>, index: nat): (b: bool)
    requires index < |messages|
    ensures b <==> isGenerating && index == |messages| - 1 && messages[index].role == Model
                   && (|messages[index].parts| == 0 || messages[index].parts[0].ImagePart?
                       || !HasVisibleText(messages[index].parts[0].text))
  {
    var m := messages[index];
    isGenerating && index == |messages| - 1 && m.role == Model && FirstTextBlank(m)
  }

  /** While generating, the placeholder just appended shows the loading dots. */
  lemma PlaceholderShowsLoading(messages: seq<Message>)
    ensures ShowLoadingIndicator(true, messages + [Placeholder], |messages|)
  {
    assert (messages + [Placeholder])[|messages|] == Placeholder;
    assert Trim("") == "";
  }

  /** While generating, the dots give way to the streamed answer once it holds a visible character. */
  lemma StreamedTextHidesLoading(messages: seq<Message>, text: string, g: Option<seq<GroundingChunk>>)
    ensures ShowLoadingIndicator(true, messages + [Message(Model, [TextPart(text)], g)], |messages|)
            <==> !HasVisibleText(text)
  {
    assert (messages + [Message(Model, [TextPart(text)], g)])[|messages|] == Message(Model, [TextPart(text)], g);
  }

  /** `chat && chat.title && chat.title !== "New Chat" ? chat.title : "Elix"`. */
  function HeaderTitle(chat: Option<Chat>): (title: string)
    ensures title != ""
    ensures title == AppName || (chat.Some? && title == chat.value.title)
    ensures chat.Some? && chat.value.title != "" && chat.value.title != NewChatTitle ==> title == chat.value.title
    ensures chat.None? || chat.value.title == "" || chat.value.title == NewChatTitle ==> title == AppName
  {
    if chat.Some? && chat.value.title != "" && chat.value.title != NewChatTitle then chat.value.title else AppName
  }

  /** A freshly opened chat, and no chat at all, show the app's name. */
  lemma NewChatShowsAppName(now: nat)
    ensures HeaderTitle(Some(NewChat(now))) == AppName && HeaderTitle(None) == AppName
  {
  }

  /** The file the user picked: its name and type, and the data URL the file reader yields for it. */
  datatype SelectedFile = SelectedFile(name: string, mimeType: string, dataUrl: string)

  /** The attached picture as the view keeps it; `data` is absent when the URL has no comma. */
  datatype Attachment = Attachment(mimeType: string, data: Option<string>, fileName: string)

  /** What `handleSend` passes on: the untrimmed input and the picture without its file. */
  datatype Outgoing = Outgoing(text: string, image: Option<Upload>)
  datatype Upload = Upload(mimeType: string, data: Option<string>)

  function UploadOf(image: Option<Attachment>): Option<Upload> {
    if image.Some? then Some(Upload(image.value.mimeType, image.value.data)) else None
  }

  /** The view's own state: the text box, the attached picture, the microphone and the file input. */
  class ChatViewState {
    var input: string
    var image: Option<Attachment>
    var isListening: bool
    var fileInputValue: string

    constructor ()
      ensures input == "" && image == None && !isListening && fileInputValue == ""
    {
      input := "";
      image := None;
      isListening := false;
      fileInputValue := "";
    }

    /** `onChange` of the text box. */
    method OnInputChange(text: string)
      modifies this`input
      ensures input == text
    {
      input := text;
    }

    /** `handleSend`: pass the message on and clear the text box, the picture and the file input. */
    method HandleSend(isGenerating: bool) returns (sent: Option<Outgoing>)
      modifies this`input, this`image, this`fileInputValue
      ensures SendBlocked(old(input), old(image).Some?, isGenerating) ==>
                sent.None? && input == old(input) && image == old(image) && fileInputValue == old(fileInputValue)
      ensures !SendBlocked(old(input), old(image).Some?, isGenerating) ==>
                sent == Some(Outgoing(old(input), UploadOf(old(image))))
                && input == "" && image.None? && fileInputValue == ""
    {
      if SendBlocked(input, image.Some?, isGenerating) {
        return None;
      }
      sent := Some(Outgoing(input, UploadOf(image)));
      input := "";
      image := None;
      fileInputValue := "";
    }

    /** `handleMicClick`: without speech recognition nothing happens; otherwise it toggles listening. */
    method HandleMicClick(available: bool)
      modifies this`isListening
      ensures isListening == (if available then !old(isListening) else old(isListening))
    {
      if !available {
        return;
      }
      if isListening {
        isListening := false;
        return;
      }
      isListening := true;
    }

    /** `recognition.onresult`: the transcript is added to what is already typed. */
    method OnSpeechResult(transcript: string)
      modifies this`input
      ensures input == AppendTranscript(old(input), transcript)
    {
      input := if input != "" then input + " " + transcript else transcript;
    }

    /** `recognition.onerror` and `recognition.onend`. */
    method OnSpeechStopped()
      modifies this`isListening
      ensures !isListening
    {
      isListening := false;
    }

    /** `handleImageChange` with the reader's `onloadend`: keep the picked file's type, data and name. */
    method HandleImageChange(file: Option<SelectedFile>)
      modifies this`image
      ensures file.None? ==> image == old(image)
      ensures file.Some? ==>
                image == Some(Attachment(file.value.mimeType, ExtractBase64(file.value.dataUrl), file.value.name))
    {
      if file.None? {
        return;
      }
      var f := file.value;
      var base64String := SecondField(f.dataUrl, ',');
      image := Some(Attachment(f.mimeType, base64String, f.name));
    }
  }
}
