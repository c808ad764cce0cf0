/** The values the fetch adapter reads and writes: the Gleam HTTP request
    and response, the fetch error type, and the outcome of a call into the
    JavaScript host. */
module Values {

  /** One octet of a byte buffer (a `Uint8Array` element, a bit array byte). */
  type byte = x: int | 0 <= x < 256

  datatype Option<+T> = None | Some(value: T)

  /** Gleam's `Result`: `Ok` or `Error`. */
  datatype Result<+T, +E> = Ok(value: T) | Error(error: E)

  /** What a call into the host did: it threw (carrying the string the
      thrown value converts to), or it returned a value. This stands for
      the `try`/`catch` around every awaited host call. */
  datatype Outcome<+T> = Threw(message: string) | Returned(value: T)

  /** A header as Gleam holds it: a `#(name, value)` pair. */
  type Header = (string, string)

  /** gleam/http's `Method`. */
  datatype Method =
    | Get | Post | Head | Put | Delete | Trace | Connect | Options | Patch
    | Other(token: string)

  /** gleam/http's `method_to_string`: the standard methods in lower case,
      a custom method as it was given. */
  function MethodToString(m: Method): (r: string)
    ensures m.Other? ==> r == m.token
    ensures !m.Other? ==> 3 <= |r| <= 7 && forall i :: 0 <= i < |r| ==> 'a' <= r[i] <= 'z'
  {
    match m
    case Get => "get"
    case Post => "post"
    case Head => "head"
    case Put => "put"
    case Delete => "delete"
    case Trace => "trace"
    case Connect => "connect"
    case Options => "options"
    case Patch => "patch"
    case Other(token) => token
  }

  datatype Scheme = Http | Https

  /** The URI parts of a Gleam request, the input of `to_uri`. */
  datatype Target = Target(scheme: Scheme, host: string, port: Option<nat>, path: string, query: Option<string>)

  /** gleam/http's `Request(body)`. */
  datatype Request<+B> = Request(httpMethod: Method, headers: seq<Header>, body: B, target: Target)

  /** gleam/http's `Response(body)`. */
  datatype Response<+B> = Response(status: int, headers: seq<Header>, body: B)

  /** A Gleam bit array, seen through its `rawBuffer`. */
  datatype BitArray = BitArray(rawBuffer: seq<byte>)

  /** gleam/fetch's `FetchError`. */
  datatype FetchError = NetworkError(message: string) | UnableToReadBody | InvalidJsonBody
}
