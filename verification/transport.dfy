/** Sending a request and reading a response body, with every host
    exception turned into a `FetchError` (src/gleam_fetch_ffi.mjs,
    `raw_send`, `from_fetch_response` and the `read_*_body` functions).
    Each awaited host call is given as its `Outcome`. */
module Transport {
  import opened Values

  /** A host `Response`: its status and the pairs that iterating its
      header container yields. Its body stream is read through the
      outcomes handed to the readers. */
  datatype HostResponse = HostResponse(status: int, headerPairs: seq<Header>)

  /** `raw_send`: a thrown `fetch` becomes a `NetworkError` carrying the
      thrown value's string; a returned response is passed on untouched. */
  function RawSend(sent: Outcome<HostResponse>): (r: Result<HostResponse, FetchError>)
    ensures r.Error? <==> sent.Threw?
    ensures r.Error? ==> r.error == NetworkError(sent.message)
    ensures r.Ok? ==> r.value == sent.value
  {
    match sent
    case Threw(message) => Error(NetworkError(message))
    case Returned(response) => Ok(response)
  }

  /** `from_fetch_response`: the Gleam response keeps the host status and
      header pairs in iteration order, and its body is the unread host
      response. */
  function FromFetchResponse(response: HostResponse): (r: Response<HostResponse>)
    ensures r.status == response.status
    ensures r.headers == response.headerPairs
    ensures r.body == response
  {
    Response(response.status, response.headerPairs, response)
  }

  /** `read_bytes_body`: `arrayBuffer()` threw, or the response gets the
      bytes as its body with status and headers kept. */
  function ReadBytesBody(response: Response<HostResponse>, read: Outcome<seq<byte>>): (r: Result<Response<BitArray>, FetchError>)
    ensures r.Error? <==> read.Threw?
    ensures r.Error? ==> r.error == UnableToReadBody
    ensures r.Ok? ==> r.value == Response(response.status, response.headers, BitArray(read.value))
  {
    match read
    case Threw(_) => Error(UnableToReadBody)
    case Returned(bytes) => Ok(Response(response.status, response.headers, BitArray(bytes)))
  }

  /** `read_text_body`: `text()` threw, or the response gets the text as
      its body with status and headers kept. */
  function ReadTextBody(response: Response<HostResponse>, read: Outcome<string>): (r: Result<Response<string>, FetchError>)
    ensures r.Error? <==> read.Threw?
    ensures r.Error? ==> r.error == UnableToReadBody
    ensures r.Ok? ==> r.value == Response(response.status, response.headers, read.value)
  {
    match read
    case Threw(_) => Error(UnableToReadBody)
    case Returned(text) => Ok(Response(response.status, response.headers, text))
  }

  /** `json()` as the host runs it: the stream is read as text, then the
      text is parsed; either step may throw. */
  function Json<J>(read: Outcome<string>, parse: string -> Outcome<J>): (r: Outcome<J>)
    ensures r.Returned? <==> read.Returned? && parse(read.value).Returned?
    ensures r.Returned? ==> r.value == parse(read.value).value
    ensures read.Threw? ==> r == Threw(read.message)
  {
    match read
    case Threw(message) => Threw(message)
    case Returned(text) => parse(text)
  }

  /** `read_json_body`: one `catch` covers reading and parsing, so every
      failure is an `InvalidJsonBody`, a failed read included. */
  function ReadJsonBody<J>(response: Response<HostResponse>, read: Outcome<string>, parse: string -> Outcome<J>): (r: Result<Response<J>, FetchError>)
    ensures r.Error? ==> r.error == InvalidJsonBody
    ensures r.Ok? <==> read.Returned? && parse(read.value).Returned?
    ensures r.Ok? ==> r.value == Response(response.status, response.headers, parse(read.value).value)
  {
    match Json(read, parse)
    case Threw(_) => Error(InvalidJsonBody)
    case Returned(json) => Ok(Response(response.status, response.headers, json))
  }

  /** Each error kind names the step that failed: a network error only
      comes from sending, an unreadable body only from the text and byte
      readers, an invalid JSON body only from the JSON reader. */
  lemma ErrorKindNamesStep<J>(sent: Outcome<HostResponse>, response: Response<HostResponse>,
                              bytes: Outcome<seq<byte>>, text: Outcome<string>, parse: string -> Outcome<J>)
    ensures RawSend(sent).Error? ==> RawSend(sent).error.NetworkError?
    ensures ReadBytesBody(response, bytes).Error? ==> ReadBytesBody(response, bytes).error == UnableToReadBody
    ensures ReadTextBody(response, text).Error? ==> ReadTextBody(response, text).error == UnableToReadBody
    ensures ReadJsonBody(response, text, parse).Error? ==> ReadJsonBody(response, text, parse).error == InvalidJsonBody
    ensures text.Threw? ==> ReadTextBody(response, text) == Error(UnableToReadBody)
    ensures text.Threw? ==> ReadJsonBody(response, text, parse) == Error(InvalidJsonBody)
  {
  }

  /** Sending, converting and reading as text: on success the Gleam
      response has the host's status and header pairs and the text read. */
  lemma SendThenReadText(sent: Outcome<HostResponse>, text: Outcome<string>)
    requires RawSend(sent).Ok?
    ensures ReadTextBody(FromFetchResponse(RawSend(sent).value), text).Ok? ==>
      ReadTextBody(FromFetchResponse(RawSend(sent).value), text).value ==
        Response(sent.value.status, sent.value.headerPairs, text.value)
  {
  }
}
