/** src/ffi.mjs, the earlier copy of the adapter: no form-data or
    bit-array renderer, and `to_fetch_request` builds its options inline
    instead of calling `request_common`. Its functions are modelled as
    written there and shown to agree with src/gleam_fetch_ffi.mjs. */
module LegacyMjs {
  import opened Values
  import opened Ascii
  import Transport
  import RequestRender

  // These functions repeat `Transport`'s text because this file's code
  // repeats the current adapter's code; `AgreesWithCurrent` records that
  // the two copies agree, which here holds by their definitions.

  function RawSend(sent: Outcome<Transport.HostResponse>): Result<Transport.HostResponse, FetchError>
  {
    match sent
    case Threw(message) => Error(NetworkError(message))
    case Returned(response) => Ok(response)
  }

  function FromFetchResponse(response: Transport.HostResponse): Response<Transport.HostResponse>
  {
    Response(response.status, response.headerPairs, response)
  }

  /** `to_fetch_request` with its options built inline; its `make_headers`
      is the same loop as `RequestRender.MakeHeaders`. */
  method ToFetchRequest(request: Request<string>, toUrl: Target -> string) returns (r: RequestRender.FetchRequest)
    ensures r == RequestRender.Rendered(toUrl(request.target), MethodToString(request.httpMethod),
                                        request.headers, RequestRender.TextBody(request.body))
  {
    var url := toUrl(request.target);
    var m := Upper(MethodToString(request.httpMethod));
    var headers := RequestRender.MakeHeaders(request.headers);
    var options := RequestRender.FetchOptions(headers, m, None);
    if m != "GET" && m != "HEAD" {
      options := options.(body := Some(RequestRender.TextBody(request.body)));
    }
    r := RequestRender.Capture(url, options);
  }

  function ReadBytesBody(response: Response<Transport.HostResponse>, read: Outcome<seq<byte>>): Result<Response<BitArray>, FetchError>
  {
    match read
    case Threw(_) => Error(UnableToReadBody)
    case Returned(bytes) => Ok(Response(response.status, response.headers, BitArray(bytes)))
  }

  function ReadTextBody(response: Response<Transport.HostResponse>, read: Outcome<string>): Result<Response<string>, FetchError>
  {
    match read
    case Threw(_) => Error(UnableToReadBody)
    case Returned(text) => Ok(Response(response.status, response.headers, text))
  }

  function ReadJsonBody<J>(response: Response<Transport.HostResponse>, read: Outcome<string>, parse: string -> Outcome<J>): Result<Response<J>, FetchError>
  {
    match Transport.Json(read, parse)
    case Threw(_) => Error(InvalidJsonBody)
    case Returned(json) => Ok(Response(response.status, response.headers, json))
  }

  /** Every classification of this file gives what the current adapter
      gives, on every outcome. */
  lemma AgreesWithCurrent<J>(sent: Outcome<Transport.HostResponse>, host: Transport.HostResponse,
                             response: Response<Transport.HostResponse>, bytes: Outcome<seq<byte>>,
                             text: Outcome<string>, parse: string -> Outcome<J>)
    ensures RawSend(sent) == Transport.RawSend(sent)
    ensures FromFetchResponse(host) == Transport.FromFetchResponse(host)
    ensures ReadBytesBody(response, bytes) == Transport.ReadBytesBody(response, bytes)
    ensures ReadTextBody(response, text) == Transport.ReadTextBody(response, text)
    ensures ReadJsonBody(response, text, parse) == Transport.ReadJsonBody(response, text, parse)
  {
  }
}
