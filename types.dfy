/**
 * The chat records of `types.ts`, plus the two shapes the chat component reads from
 * the model API's responses: a grounding chunk (a web citation) and a stream chunk.
 */
module Types {
  import opened Wrappers

  /** `Role.USER` / `Role.MODEL`. */
  datatype Role = User | Model

  datatype InlineData = InlineData(mimeType: string, data: string)

  /** A message part: plain text, or base64 image data with its MIME type. */
  datatype Part = TextPart(text: string) | ImagePart(inlineData: InlineData)

  /** The `web` reference of a grounding chunk; both fields may be absent. */
  datatype WebSource = WebSource(uri: Option<string>, title: Option<string>)

  /** A citation attached to a web-grounded answer. */
  datatype GroundingChunk = GroundingChunk(web: Option<WebSource>)

  /** A message; `groundingMetadata` is set only on MODEL answers that cite sources. */
  datatype Message = Message(role: Role, parts: seq<Part>, groundingMetadata: Option<seq<GroundingChunk>>)

  datatype Chat = Chat(id: string, title: string, messages: seq<Message>, useWebSearch: bool)

  /**
   * One response of the stream: `chunk.text` (undefined when the response carries no
   * text) and `chunk.candidates[0].groundingMetadata.groundingChunks` when present.
   */
  datatype StreamChunk = StreamChunk(text: Option<string>, groundingChunks: Option<seq<GroundingChunk>>)
}
