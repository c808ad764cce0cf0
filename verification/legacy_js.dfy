/** src/ffi.js, the oldest copy of the adapter: no bytes reader, no
    form-data or bit-array renderer, the URL built with `req_to_uri`, and
    `read_text_body` building its result inside the `try`. Its functions
    are modelled as written there and shown to agree with
    src/gleam_fetch_ffi.mjs. */
module LegacyJs {
  import opened Values
  import opened Ascii
  import Transport
  import RequestRender

  // These functions repeat `Transport`'s text because this file's code
  // repeats the current adapter's code; `AgreesWithCurrent` records that
  // the two copies agree, which here holds by their definitions.

  function RawSend(sent: Outcome<Transport.HostResponse>): Result<Transport.HostResponse, FetchError>
  {
    match sent
    case Threw(message) => Error(NetworkError(message))
    case Returned(response) => Ok(response)
  }

  function FromFetchResponse(response: Transport.HostResponse): Response<Transport.HostResponse>
  {
    Response(response.status, response.headerPairs, response)
  }

  /** `to_fetch_request` with its options built inline; `toUrl` stands
      for `uri_to_string(req_to_uri(_))`, and its `make_headers` is the same
      loop as `RequestRender.MakeHeaders`. */
  method ToFetchRequest(request: Request<string>, toUrl: Target -> string) returns (r: RequestRender.FetchRequest)
    ensures r == RequestRender.Rendered(toUrl(request.target), MethodToString(request.httpMethod),
                                        request.headers, RequestRender.TextBody(request.body))
  {
    var url := toUrl(request.target);
    var m := Upper(MethodToString(request.httpMethod));
    var headers := RequestRender.MakeHeaders(request.headers);
    var options := RequestRender.FetchOptions(headers, m, None);
    if m != "GET" && m != "HEAD" {
      options := options.(body := Some(RequestRender.TextBody(request.body)));
    }
    r := RequestRender.Capture(url, options);
  }

  /** `read_text_body`: the `try` covers both the read and building the
      response, and only the read can throw. */
  function ReadTextBody(response: Response<Transport.HostResponse>, read: Outcome<string>): Result<Response<string>, FetchError>
  {
    if read.Returned? then Ok(Response(response.status, response.headers, read.value))
    else Error(UnableToReadBody)
  }

  function ReadJsonBody<J>(response: Response<Transport.HostResponse>, read: Outcome<string>, parse: string -> Outcome<J>): Result<Response<J>, FetchError>
  {
    var json := Transport.Json(read, parse);
    if json.Returned? then Ok(Response(response.status, response.headers, json.value))
    else Error(InvalidJsonBody)
  }

  /** Every classification of this file gives what the current adapter
      gives, on every outcome. */
  lemma AgreesWithCurrent<J>(sent: Outcome<Transport.HostResponse>, host: Transport.HostResponse,
                             response: Response<Transport.HostResponse>,
                             text: Outcome<string>, parse: string -> Outcome<J>)
    ensures RawSend(sent) == Transport.RawSend(sent)
    ensures FromFetchResponse(host) == Transport.FromFetchResponse(host)
    ensures ReadTextBody(response, text) == Transport.ReadTextBody(response, text)
    ensures ReadJsonBody(response, text, parse) == Transport.ReadJsonBody(response, text, parse)
  {
  }
}
