/** Rendering a Gleam request into the `(url, options)` pair handed to the
    host's `Request` constructor (src/gleam_fetch_ffi.mjs, `request_common`,
    the three `*_to_fetch_request` functions and `make_headers`). */
module RequestRender {
  import opened Values
  import opened Ascii
  import HostFormData

  /** The host's mutable `Headers` object, seen as its header list. The
      host's own checks on names and values are not modelled. */
  class Headers {
    var pairs: seq<Header>

    /** `new Headers()`. */
    constructor ()
      ensures pairs == []
    {
      pairs := [];
    }

    method Append(name: string, value: string)
      modifies this
      ensures pairs == old(pairs) + [(name, value)]
    {
      pairs := pairs + [(name, value)];
    }

    /** `delete(name)`: removes every header whose name matches `name`
        without regard to case. */
    method Delete(name: string)
      modifies this
      ensures pairs == WithoutHeader(old(pairs), name)
    {
      pairs := WithoutHeader(pairs, name);
    }
  }

  /** A body as the host receives it: a string, the very `FormData` object
      of the request, or a byte buffer. */
  datatype FetchBody = TextBody(text: string) | FormBody(form: HostFormData.FormData) | BufferBody(buffer: seq<byte>)

  /** The options object built by `request_common`; `body` is absent until
      a renderer sets it. */
  datatype FetchOptions = FetchOptions(headers: Headers, httpMethod: string, body: Option<FetchBody>)

  /** The request as the host's `Request` constructor captures it: the
      header list is copied out of the `Headers` object. */
  datatype FetchRequest = FetchRequest(url: string, httpMethod: string, headers: seq<Header>, body: Option<FetchBody>)

  /** Every header with its name lower-cased; values, order and repeats kept. */
  function LowerNames(hs: seq<Header>): (r: seq<Header>)
    ensures |r| == |hs|
    ensures forall i :: 0 <= i < |hs| ==> r[i] == (Lower(hs[i].0), hs[i].1)
  {
    if hs == [] then [] else [(Lower(hs[0].0), hs[0].1)] + LowerNames(hs[1..])
  }

  /** The header list without the headers named `name`, compared without
      regard to case; the others keep their order. */
  function WithoutHeader(hs: seq<Header>, name: string): (r: seq<Header>)
    ensures forall h :: h in r ==> h in hs && Lower(h.0) != Lower(name)
    ensures forall h :: h in hs && Lower(h.0) != Lower(name) ==> h in r
  {
    if hs == [] then []
    else if Lower(hs[0].0) == Lower(name) then WithoutHeader(hs[1..], name)
    else [hs[0]] + WithoutHeader(hs[1..], name)
  }

  /** Dropping headers works on each part of a header list on its own, so
      the headers that stay keep their relative order. */
  lemma {:induction false} WithoutHeaderConcat(a: seq<Header>, b: seq<Header>, name: string)
    ensures WithoutHeader(a + b, name) == WithoutHeader(a, name) + WithoutHeader(b, name)
  {
    if a == [] {
      assert a + b == b;
    } else {
      assert (a + b)[1..] == a[1..] + b;
      WithoutHeaderConcat(a[1..], b, name);
    }
  }

  /** Whether an upper-cased method carries a body: GET and HEAD do not,
      the other standard methods do. */
  predicate CarriesBody(httpMethod: string)
    ensures httpMethod == "GET" || httpMethod == "HEAD" ==> !CarriesBody(httpMethod)
    ensures httpMethod in ["POST", "PUT", "DELETE", "TRACE", "CONNECT", "OPTIONS", "PATCH"] ==> CarriesBody(httpMethod)
  {
    httpMethod != "GET" && httpMethod != "HEAD"
  }

  /** What the renderers produce for a request with URL `url`, method
      string `m`, headers `hs` and body `b`. */
  function Rendered(url: string, m: string, hs: seq<Header>, b: FetchBody): FetchRequest
  {
    var upper := Upper(m);
    FetchRequest(url, upper, LowerNames(hs), if CarriesBody(upper) then Some(b) else None)
  }

  /** `new Request(url, options)`: the request keeps the URL, the method
      and the body, and takes a copy of the header list as it stands. */
  function Capture(url: string, options: FetchOptions): (r: FetchRequest)
    reads options.headers
    ensures r.url == url && r.httpMethod == options.httpMethod && r.body == options.body
    ensures r.headers == options.headers.pairs
  {
    FetchRequest(url, options.httpMethod, options.headers.pairs, options.body)
  }

  /** `make_headers`: a fresh `Headers` holding the pairs with lower-cased
      names, appended in order. */
  method MakeHeaders(list: seq<Header>) returns (headers: Headers)
    ensures fresh(headers)
    ensures headers.pairs == LowerNames(list)
  {
    headers := new Headers();
    for i := 0 to |list|
      invariant |headers.pairs| == i
      invariant forall k :: 0 <= k < i ==> headers.pairs[k] == (Lower(list[k].0), list[k].1)
    {
      var (k, v) := list[i];
      headers.Append(Lower(k), v);
    }
  }

  /** `request_common`: the URL, and options with lower-cased headers and
      the upper-cased method, but no body yet. `toUrl` stands for
      `uri_to_string(to_uri(_))`. */
  method RequestCommon<B>(request: Request<B>, toUrl: Target -> string) returns (url: string, options: FetchOptions)
    ensures fresh(options.headers)
    ensures url == toUrl(request.target)
    ensures options.httpMethod == Upper(MethodToString(request.httpMethod))
    ensures options.headers.pairs == LowerNames(request.headers)
    ensures options.body == None
  {
    url := toUrl(request.target);
    var m := Upper(MethodToString(request.httpMethod));
    var headers := MakeHeaders(request.headers);
    options := FetchOptions(headers, m, None);
  }

  /** `to_fetch_request`: a string body, attached unless the method is GET
      or HEAD. */
  method ToFetchRequest(request: Request<string>, toUrl: Target -> string) returns (r: FetchRequest)
    ensures r == Rendered(toUrl(request.target), MethodToString(request.httpMethod), request.headers, TextBody(request.body))
  {
    var url, options := RequestCommon(request, toUrl);
    if CarriesBody(options.httpMethod) {
      options := options.(body := Some(TextBody(request.body)));
    }
    r := Capture(url, options);
  }

  /** `form_data_to_fetch_request` as the comment beside it intends: the
      `FormData` object is the body, and no `content-type` header is left
      so that the host writes one with the multipart boundary. */
  method FormDataToFetchRequest(request: Request<HostFormData.FormData>, toUrl: Target -> string) returns (r: FetchRequest)
    ensures r == RenderedForm(toUrl(request.target), MethodToString(request.httpMethod), request.headers, request.body)
  {
    var url, options := RequestCommon(request, toUrl);
    if CarriesBody(options.httpMethod) {
      options := options.(body := Some(FormBody(request.body)));
    }
    options.headers.Delete("content-type");
    r := Capture(url, options);
  }

  /** What the form-data renderer intends to produce. */
  function RenderedForm(url: string, m: string, hs: seq<Header>, form: HostFormData.FormData): FetchRequest
  {
    var rendered := Rendered(url, m, hs, FormBody(form));
    rendered.(headers := WithoutHeader(rendered.headers, "content-type"))
  }

  /** `form_data_to_fetch_request` as written: its `delete` statement
      removes a JavaScript property named `content-type` from the `Headers`
      object, which has no such property, and leaves the header list as
      it was. */
  method FormDataToFetchRequestAsWritten(request: Request<HostFormData.FormData>, toUrl: Target -> string) returns (r: FetchRequest)
    ensures r == Rendered(toUrl(request.target), MethodToString(request.httpMethod), request.headers, FormBody(request.body))
  {
    var url, options := RequestCommon(request, toUrl);
    if CarriesBody(options.httpMethod) {
      options := options.(body := Some(FormBody(request.body)));
    }
    r := Capture(url, options);
  }

  /** `bitarray_request_to_fetch_request`: the bit array's raw buffer is
      the body. */
  method BitArrayToFetchRequest(request: Request<BitArray>, toUrl: Target -> string) returns (r: FetchRequest)
    ensures r == Rendered(toUrl(request.target), MethodToString(request.httpMethod), request.headers, BufferBody(request.body.rawBuffer))
  {
    var url, options := RequestCommon(request, toUrl);
    if CarriesBody(options.httpMethod) {
      options := options.(body := Some(BufferBody(request.body.rawBuffer)));
    }
    r := Capture(url, options);
  }

  // Properties of the rendered request.

  /** A request carries a body exactly when its method, upper-cased, is
      neither GET nor HEAD; the standard methods other than GET and HEAD
      always do, and a custom method spelled "get" or "Head" is treated
      like GET or HEAD. */
  lemma RenderedBody(url: string, m: Method, hs: seq<Header>, b: FetchBody)
    ensures Rendered(url, MethodToString(m), hs, b).body ==
      if CarriesBody(Upper(MethodToString(m))) then Some(b) else None
    ensures m == Get || m == Head ==> Rendered(url, MethodToString(m), hs, b).body == None
    ensures !m.Other? && m != Get && m != Head ==> Rendered(url, MethodToString(m), hs, b).body == Some(b)
    ensures m == Other("get") || m == Other("Head") ==> Rendered(url, MethodToString(m), hs, b).body == None
  {
  }

  /** The rendered headers are the input headers in the same order and
      number, each name lower-cased (so holding no upper-case letter) and
      each value unchanged. */
  lemma {:induction false} RenderedHeaders(url: string, m: string, hs: seq<Header>, b: FetchBody)
    ensures |Rendered(url, m, hs, b).headers| == |hs|
    ensures forall i :: 0 <= i < |hs| ==>
      Rendered(url, m, hs, b).headers[i].0 == Lower(hs[i].0) &&
      Rendered(url, m, hs, b).headers[i].1 == hs[i].1
    ensures forall i, j :: 0 <= i < |hs| && 0 <= j < |hs[i].0| ==>
      !IsUpperLetter(Rendered(url, m, hs, b).headers[i].0[j])
  {
  }

  /** Lower-casing names commutes with dropping the headers of one name. */
  lemma {:induction false} LowerNamesWithout(hs: seq<Header>, name: string)
    ensures WithoutHeader(LowerNames(hs), name) == LowerNames(WithoutHeader(hs, name))
  {
    if hs != [] {
      LowerIsLowerCase(hs[0].0);
      assert LowerNames(hs)[1..] == LowerNames(hs[1..]);
      LowerNamesWithout(hs[1..], name);
    }
  }

  /** The form-data renderer leaves no `content-type` header, whatever its
      case in the input; it renders exactly the other headers, in order,
      with the same method, URL and body as the other renderers. */
  lemma RenderedFormHasNoContentType(url: string, m: string, hs: seq<Header>, form: HostFormData.FormData)
    ensures forall h :: h in RenderedForm(url, m, hs, form).headers ==> Lower(h.0) != "content-type"
    ensures RenderedForm(url, m, hs, form).headers == LowerNames(WithoutHeader(hs, "content-type"))
    ensures RenderedForm(url, m, hs, form).body == Rendered(url, m, hs, FormBody(form)).body
  {
    LowerNamesWithout(hs, "content-type");
    LowerContentType();
  }

  /** The header name `content-type` is its own lower-case form. */
  lemma LowerContentType()
    ensures Lower("content-type") == "content-type"
  {
    var name := "content-type";
    assert forall i :: 0 <= i < |name| ==> 'a' <= name[i] <= 'z' || name[i] == '-';
    LowerOfLowerCase(name);
  }

  /** As written, the form-data renderer passes a `content-type` header
      through, so a caller's `multipart/form-data` without a boundary
      reaches the host; the intended renderer drops it. */
  lemma ContentTypeSurvivesAsWritten(url: string, form: HostFormData.FormData)
    ensures Rendered(url, "post", [("content-type", "multipart/form-data")], FormBody(form)).headers
      == [("content-type", "multipart/form-data")]
    ensures RenderedForm(url, "post", [("content-type", "multipart/form-data")], form).headers == []
  {
    var hs: seq<Header> := [("content-type", "multipart/form-data")];
    LowerContentType();
    assert LowerNames(hs) == [("content-type", "multipart/form-data")];
    assert WithoutHeader(LowerNames(hs), "content-type") == [];
  }
}
