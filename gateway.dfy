/** The boundary to the hosted model (services/geminiService.ts). Network replies are not
    computed here: they are inputs, and only the credential gate in front of them is modelled. */
module Gateway {
  import opened Types

  /** The advisory text shown at start-up when no API key is configured. */
  const ApiKeyMissing: string := "API_KEY environment variable not set. Please configure it to use the AI assistant."

  /** The message of the `Error` thrown by every call made without an API key. */
  const KeyNotConfigured: string := "API key is not configured."

  /** `getApiKeyError`: a message exactly when the key is absent or empty (an empty string is falsy). */
  function ApiKeyError(apiKey: string): (r: Option<string>)
    ensures r.None? <==> apiKey != ""
    ensures r.Some? ==> r.value == ApiKeyMissing && r.value != ""
  {
    if apiKey != "" then None else Some(ApiKeyMissing)
  }

  /** The stream fails by throwing `thrown` once `after` chunks have been delivered. */
  datatype Failure = Failure(after: nat, thrown: Thrown)

  /** What iterating over one streamed reply yields: chunk texts in arrival order, and
      possibly a failure part-way (a failure after all chunks is a failure at the end). */
  datatype ChunkStream = ChunkStream(chunks: seq<string>, failure: Option<Failure>)

  /** The chunks the loop receives before the stream ends or throws. */
  function Delivered(s: ChunkStream): (r: seq<string>)
    ensures |r| <= |s.chunks| && r == s.chunks[..|r|]
    ensures s.failure.None? ==> r == s.chunks
    ensures s.failure.Some? ==> |r| == if s.failure.value.after < |s.chunks| then s.failure.value.after else |s.chunks|
  {
    match s.failure
    case None => s.chunks
    case Some(f) => if f.after < |s.chunks| then s.chunks[..f.after] else s.chunks
  }

  /** `streamChat`: without a key it throws before any chunk; otherwise the reply is the service's. */
  function StreamChat(apiKey: string, reply: ChunkStream): (r: ChunkStream)
    ensures apiKey == "" ==> Delivered(r) == [] && r.failure == Some(Failure(0, ErrorObject(KeyNotConfigured)))
    ensures apiKey != "" ==> r == reply
  {
    if apiKey == "" then ChunkStream([], Some(Failure(0, ErrorObject(KeyNotConfigured)))) else reply
  }

  /** `diagnoseCropDisease` followed by trimming and `JSON.parse` of the reply text: the service's
      parsed record, or the value thrown on the way; without a key, the configuration error. */
  function DiagnoseCropDisease(apiKey: string, reply: Result<DiagnosisResult, Thrown>): (r: Result<DiagnosisResult, Thrown>)
    ensures apiKey == "" ==> r == Err(ErrorObject(KeyNotConfigured))
    ensures apiKey != "" ==> r == reply
  {
    if apiKey == "" then Err(ErrorObject(KeyNotConfigured)) else reply
  }
}
