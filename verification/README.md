# gleam/fetch JavaScript adapter, modelled in Dafny

gleam/fetch sends Gleam HTTP requests through the JavaScript host's `fetch`.
Its JavaScript adapter does four things, and this project models each one and
proves its properties:

- It renders an immutable Gleam `Request` into the `(url, options)` pair that
  the host's `Request` constructor takes. The method is upper-cased. Header
  names are lower-cased, and values, order and repeats are kept. A body is
  attached unless the method is GET or HEAD. A bit array goes in as its raw
  buffer, and a form-data body goes in as the `FormData` object itself.
- It classifies the failures of `fetch` and of the body reads into a
  `FetchError`. A thrown `fetch` gives `NetworkError(message)`. A failed text
  or byte read gives `UnableToReadBody`. Any failure of the JSON reader gives
  `InvalidJsonBody`. Other host calls are not guarded (see "Left out").
- It converts the host response into a Gleam `Response` and, on a successful
  read, replaces only its body.
- It gives Gleam an immutable form-data value over the host's mutable
  `FormData`. Every change is made to a fresh clone.

Modules:

- `Values`: the Gleam values (request, response, method, bit array,
  `FetchError`) and `Outcome`, which stands for a host call that threw or
  returned.
- `Ascii`: case mapping for tokens.
- `Utf8`: the encoding that `TextEncoder` performs (section 3 of RFC 3629).
- `HostFormData`: the host `FormData` class and its entry-list operations, as
  the WHATWG XMLHttpRequest Standard, section 4 (Interface FormData) defines
  them.
- `RequestRender`, `Transport` and `FormDataFfi`: the three parts of
  src/gleam_fetch_ffi.mjs.
- `LegacyMjs` and `LegacyJs`: the two older copies, src/ffi.mjs and
  src/ffi.js. Each one is proved to agree with the current adapter.

Host calls are parameters of the model: `fetch`, `text()`, `arrayBuffer()`,
and `json()`, which is a text read followed by a `parse` function. The URI
serialisation (`uri_to_string` of `to_uri`, or `req_to_uri` in src/ffi.js)
is the parameter `toUrl`.

Three behaviours of the code are easy to misread, and the model states them
as the code has them:

- `read_json_body` has a single `catch` around both the read and the parse.
  So a failed read gives `InvalidJsonBody`, never `UnableToReadBody`.
- `make_headers` appends every pair. A header name repeated in the input is
  rendered as often as it occurs.
- `keysFormData` returns the keys in first-occurrence order, because a
  JavaScript `Set` keeps insertion order. `Distinct` states that order.

## Model

| member | source | states |
|---|---|---|
| `Ascii.Lower` | src/gleam_fetch_ffi.mjs:60 | `toLowerCase` on a name maps each character to its lower-case form and keeps the length |
| `Ascii.Upper` | src/gleam_fetch_ffi.mjs:30 | `toUpperCase` on the method maps each character to its upper-case form and keeps the length |
| `Ascii.LowerIsLowerCase` | src/gleam_fetch_ffi.mjs:60 | a lower-cased name holds no upper-case letter, and lower-casing it again changes nothing |
| `Values.MethodToString` | src/gleam_fetch_ffi.mjs:30 | gleam/http's `method_to_string`: a custom method is its token as given; a standard method is spelled with 3 to 7 lower-case ASCII letters, so upper-casing gives the standard token |
| `Utf8.EncodeScalar` | src/gleam_fetch_ffi.mjs:142-146 | a character encodes to 1 byte exactly when it is below U+0080, 2 bytes exactly when it is in U+0080..U+07FF, 3 bytes exactly when it is in U+0800..U+FFFF and 4 bytes exactly from U+10000 on; a 1-byte encoding is the code point itself, the lead byte's range gives the length, and the later bytes are continuation bytes |
| `Utf8.DecodeEncodeScalar` | src/gleam_fetch_ffi.mjs:142-146 | decoding the bytes of an encoded character gives the character back |
| `Utf8.Encode` | src/gleam_fetch_ffi.mjs:145 | a string encodes to between 1 and 4 bytes per character |
| `Utf8.EncodeAscii` | src/gleam_fetch_ffi.mjs:145 | an ASCII string encodes to its code points, one byte per character |
| `HostFormData.Without` | src/gleam_fetch_ffi.mjs:131 | `delete` keeps only entries of the list whose name is not the deleted one |
| `HostFormData.SetEntry` | src/gleam_fetch_ffi.mjs:113 | the entry list after `set` holds the new entry and has at most one entry more than before |
| `HostFormData.SetEntryEntries` | src/gleam_fetch_ffi.mjs:113 | after `set`, every entry is the new one or an old entry with another name, and every old entry with another name is still there |
| `HostFormData.ValuesOf` | src/gleam_fetch_ffi.mjs:135-141 | `getAll` gives a value iff some entry under the name holds it, and no more values than there are entries |
| `HostFormData.HasName` | src/gleam_fetch_ffi.mjs:158 | `has` holds iff the name is among the names `keys()` yields |
| `HostFormData.Names` | src/gleam_fetch_ffi.mjs:163 | `keys()` yields the name of each entry, in order, one per entry |
| `HostFormData.FormData.constructor` | src/gleam_fetch_ffi.mjs:95-97 | a new `FormData` has no entries |
| `HostFormData.FormData.Append` | src/gleam_fetch_ffi.mjs:107 | `append` adds the entry at the end and changes nothing else |
| `HostFormData.FormData.Set` | src/gleam_fetch_ffi.mjs:113 | `set` changes the entry list as `SetEntry` says |
| `HostFormData.FormData.Delete` | src/gleam_fetch_ffi.mjs:131 | `delete` changes the entry list as `Without` says |
| `HostFormData.HasNameIff` | src/gleam_fetch_ffi.mjs:157-159 | `has(name)` holds iff `getAll(name)` is non-empty |
| `HostFormData.ValuesOfAppend` | src/gleam_fetch_ffi.mjs:105-109 | after `append`, `getAll` of the key is the old values plus the new one at the end; other keys are unchanged |
| `HostFormData.ValuesOfWithout` | src/gleam_fetch_ffi.mjs:129-133 | after `delete`, no entry has the key, and every other key keeps its values in order |
| `HostFormData.ValuesOfSetEntry` | src/gleam_fetch_ffi.mjs:111-115 | after `set`, exactly one entry has the key and it holds the new value; other keys keep their values in order |
| `HostFormData.SetEntryPlace` | src/gleam_fetch_ffi.mjs:111-115 | `set` replaces the first entry under the key in place and keeps the entries before it; with no such entry it appends at the end |
| `RequestRender.Headers.constructor` | src/gleam_fetch_ffi.mjs:59 | a new `Headers` has an empty header list |
| `RequestRender.Headers.Append` | src/gleam_fetch_ffi.mjs:60 | `append` adds the pair at the end of the header list |
| `RequestRender.Headers.Delete` | src/gleam_fetch_ffi.mjs:47-48 | `delete` removes every header whose name matches, ignoring case |
| `RequestRender.LowerNames` | src/gleam_fetch_ffi.mjs:58-62 | each rendered header is the input header at the same position, with the name lower-cased and the value unchanged; the count is the same |
| `RequestRender.WithoutHeader` | src/gleam_fetch_ffi.mjs:47-48 | a header stays iff it is in the input and its name differs from the removed name in every case |
| `RequestRender.WithoutHeaderConcat` | src/gleam_fetch_ffi.mjs:47-48 | removal works on each part of the list separately, so the headers that stay keep their relative order |
| `RequestRender.CarriesBody` | src/gleam_fetch_ffi.mjs:40-54 | GET and HEAD take no body; POST, PUT, DELETE, TRACE, CONNECT, OPTIONS and PATCH take one |
| `RequestRender.Capture` | src/gleam_fetch_ffi.mjs:41-55 | the constructed request keeps the URL, method and body of the options, and a copy of the header list as it stands at construction |
| `RequestRender.MakeHeaders` | src/gleam_fetch_ffi.mjs:58-62 | the loop fills a fresh `Headers` with exactly `LowerNames(list)` |
| `RequestRender.RequestCommon` | src/gleam_fetch_ffi.mjs:28-36 | the URL is the serialised target; the method is upper-cased; the headers are fresh and hold the lower-cased pairs; there is no body yet |
| `RequestRender.ToFetchRequest` | src/gleam_fetch_ffi.mjs:38-42 | the string request renders as `Rendered`, with the string as the body |
| `RequestRender.FormDataToFetchRequest` | src/gleam_fetch_ffi.mjs:44-50 | the form-data request renders as the comment at line 47 intends: the `FormData` object is the body and no `content-type` header is left |
| `RequestRender.FormDataToFetchRequestAsWritten` | src/gleam_fetch_ffi.mjs:44-50 | as written, the form-data request renders exactly as `Rendered` with the `FormData` body, and every header is kept |
| `RequestRender.BitArrayToFetchRequest` | src/gleam_fetch_ffi.mjs:52-56 | the bit-array request renders as `Rendered`, with the raw buffer as the body |
| `RequestRender.RenderedBody` | src/gleam_fetch_ffi.mjs:38-56 | a body is attached iff the upper-cased method is neither GET nor HEAD; GET and HEAD never carry one; every other standard method always does; a custom `get` or `Head` counts as GET or HEAD |
| `RequestRender.RenderedHeaders` | src/gleam_fetch_ffi.mjs:58-62 | the rendered headers are the input pairs, same order and count, each name lower-cased with no upper-case letter left, each value unchanged |
| `RequestRender.LowerNamesWithout` | src/gleam_fetch_ffi.mjs:44-62 | dropping a header name after lower-casing is the same as lower-casing after dropping it |
| `RequestRender.RenderedFormHasNoContentType` | src/gleam_fetch_ffi.mjs:44-50 | the intended form-data rendering has no `content-type` header in any case; it renders exactly the other input headers, in order; its body is the same as in the other renderers |
| `RequestRender.LowerContentType` | src/gleam_fetch_ffi.mjs:47-48 | `content-type` is already lower case |
| `RequestRender.ContentTypeSurvivesAsWritten` | src/gleam_fetch_ffi.mjs:48 | as written, a POST with a `content-type: multipart/form-data` header renders with that header kept; the intended rendering has none |
| `Transport.RawSend` | src/gleam_fetch_ffi.mjs:12-18 | the result is an error iff `fetch` threw, and the error is `NetworkError` with the thrown value's string; otherwise it is `Ok` of the host response unchanged |
| `Transport.FromFetchResponse` | src/gleam_fetch_ffi.mjs:20-26 | the Gleam response keeps the host status and the header pairs in iteration order, and its body is the unread host response |
| `Transport.ReadBytesBody` | src/gleam_fetch_ffi.mjs:64-72 | an error iff `arrayBuffer()` threw, and then `UnableToReadBody`; otherwise status and headers are kept and the body is the bytes read |
| `Transport.ReadTextBody` | src/gleam_fetch_ffi.mjs:74-82 | an error iff `text()` threw, and then `UnableToReadBody`; otherwise status and headers are kept and the body is the text read |
| `Transport.Json` | src/gleam_fetch_ffi.mjs:86 | `json()` returns iff the text read returned and its parse returned, and then gives the parsed value; a failed read is passed on with its message |
| `Transport.ReadJsonBody` | src/gleam_fetch_ffi.mjs:84-91 | every error is `InvalidJsonBody`; the result is `Ok` iff both the read and the parse returned, and then only the body is replaced by the parsed value |
| `Transport.ErrorKindNamesStep` | src/gleam_fetch_ffi.mjs:12-91 | `NetworkError` comes only from sending, `UnableToReadBody` only from the text and byte readers, and `InvalidJsonBody` only from the JSON reader, even when the JSON read itself failed |
| `Transport.SendThenReadText` | src/gleam_fetch_ffi.mjs:12-82 | a successful send and text read give a response with the host's status and header pairs and the text as its body |
| `FormDataFfi.NewFormData` | src/gleam_fetch_ffi.mjs:95-97 | a fresh, empty form data |
| `FormDataFfi.CloneFormData` | src/gleam_fetch_ffi.mjs:99-103 | the loop yields a fresh object with the same entries in the same order |
| `FormDataFfi.AppendFormData` | src/gleam_fetch_ffi.mjs:105-109 | the result is a fresh object holding the receiver's entries plus the string entry at the end; the receiver is unchanged |
| `FormDataFfi.SetFormData` | src/gleam_fetch_ffi.mjs:111-115 | the result is a fresh object holding `SetEntry` of the receiver's entries; the receiver is unchanged |
| `FormDataFfi.AppendBitsFormData` | src/gleam_fetch_ffi.mjs:117-121 | the result is a fresh object with a file entry of the bit array's bytes at the end; the receiver is unchanged |
| `FormDataFfi.SetBitsFormData` | src/gleam_fetch_ffi.mjs:123-127 | the result is a fresh object holding `SetEntry` with a file entry; the receiver is unchanged |
| `FormDataFfi.DeleteFormData` | src/gleam_fetch_ffi.mjs:129-133 | the result is a fresh object without the key's entries; the receiver is unchanged |
| `FormDataFfi.Texts` | src/gleam_fetch_ffi.mjs:137 | the filter keeps only string values, and no more of them than there are values |
| `FormDataFfi.GetFormData` | src/gleam_fetch_ffi.mjs:135-138 | `getFormData` returns only string values stored under the key, and no more than `getAll` gives |
| `FormDataFfi.AllBytes` | src/gleam_fetch_ffi.mjs:140-155 | one buffer per value, in order: a string is UTF-8 encoded and a file is given as it is |
| `FormDataFfi.GetBitsFormData` | src/gleam_fetch_ffi.mjs:140-155 | `getBitsFormData` gives one buffer per entry under the key, in entry order, with a file's bytes unchanged |
| `FormDataFfi.HasFormData` | src/gleam_fetch_ffi.mjs:157-159 | `hasFormData` holds iff some entry has the key |
| `FormDataFfi.Distinct` | src/gleam_fetch_ffi.mjs:162-166 | spreading the `Set` of names gives only names that occur, and no more of them than there are names |
| `FormDataFfi.DistinctProperties` | src/gleam_fetch_ffi.mjs:161-167 | adding names in order to a `Set` keeps each name exactly once and adds none |
| `FormDataFfi.KeysFormData` | src/gleam_fetch_ffi.mjs:161-167 | the loop returns the entry names in first-occurrence order, with no repeats, and holds exactly the keys present |
| `FormDataFfi.GetAfterAppend` | src/gleam_fetch_ffi.mjs:105-138 | after appending a string, `get` is the old strings plus the new one; after appending a file, `get` is unchanged; other keys are untouched |
| `FormDataFfi.TextsAppend` | src/gleam_fetch_ffi.mjs:137 | filtering a list with one more value adds that value at the end iff it is a string |
| `FormDataFfi.GetAfterSetAndDelete` | src/gleam_fetch_ffi.mjs:111-138 | after `set`, `get` is just the new string and `has` holds; after `delete`, `get` is empty and `has` fails |
| `FormDataFfi.MutatorsLeaveSourceAlone` | src/gleam_fetch_ffi.mjs:99-167 | append, set and delete chained each return a new object; the object given to the chain is unchanged; the last copy has nothing under the key and answers `get` for every other key as the original does |
| `FormDataFfi.GetBitsOfHello` | src/gleam_fetch_ffi.mjs:140-155 | `getBits` of `set(new, "f", "hello")` under `"f"` is one buffer, the UTF-8 bytes of `hello` |
| `LegacyMjs.ToFetchRequest` | src/ffi.mjs:28-43 | the inline renderer of src/ffi.mjs gives the same rendering as the current one (body iff not GET/HEAD, names lower-cased, values, order and count kept) |
| `LegacyMjs.AgreesWithCurrent` | src/ffi.mjs:12-72 | `raw_send`, `from_fetch_response` and the three readers of src/ffi.mjs give what the current adapter gives on every outcome |
| `LegacyJs.ToFetchRequest` | src/ffi.js:30-45 | the inline renderer of src/ffi.js gives the same rendering as the current one |
| `LegacyJs.AgreesWithCurrent` | src/ffi.js:14-63 | `raw_send`, `from_fetch_response`, `read_text_body` and `read_json_body` of src/ffi.js give what the current adapter gives on every outcome |

## Left out

- The network call (`fetch`), the stream reads (`text()`, `json()`, `arrayBuffer()`) and JSON parsing are host behaviour. Each is an `Outcome` or a function passed in as a parameter.
- `Blob.arrayBuffer()` in `getBitsFormData` (src/gleam_fetch_ffi.mjs:148) is not modelled. `AllBytes` takes a file entry's bytes directly. A rejected read would reject the whole `Promise.all` (line 153), and nothing in the adapter catches that rejection; that failure path is not modelled.
- `async`/`await` and the `Promise.all` in `getBitsFormData` are not modelled. Only the resulting order is: one buffer per entry, in entry order.
- The host `Request` and `Headers` constructors are not modelled. This covers their validation of names and values, the trimming of values, and the case folding and combining that `Headers` does itself. The rendered request is the captured `(url, options)` record.
- The throws of those host calls are not modelled, and the adapter does not catch them. `headers.append` (src/gleam_fetch_ffi.mjs:60) throws on an invalid name or value. `new globalThis.Request` (lines 41, 49 and 55) throws a `TypeError` when the URL does not parse and for the forbidden methods CONNECT and TRACE. The model renders those requests, with a body for CONNECT and TRACE, where the host would throw.
- The host response's header pairs are taken as given. Iterating a `Headers` object sorts and combines them, and that is host behaviour.
- `uri_to_string`, `to_uri` and `req_to_uri` are external library functions. They are not part of this model and are the `toUrl` parameter. gleam/http's `method_to_string` is defined in the model as `Values.MethodToString`, with that library's lower-case spellings ("get", "post", and so on; a custom method as given). The standard-method and custom-method clauses of `RequestRender.RenderedBody` rest on those spellings.
- `toBitArray`, `toList` and `List.fromArray` convert between JavaScript arrays and Gleam lists. They are identities on sequences here.
- `Ascii.Lower`: does not model full Unicode `toLowerCase`, because header names are tokens and hold ASCII only.
- `Ascii.Upper`: does not model full Unicode `toUpperCase`, so a custom method with a non-ASCII letter may differ. Methods are tokens too.
- `Utf8.Encode`: does not model lone UTF-16 surrogates, which `TextEncoder` replaces with U+FFFD, because a Dafny character is a Unicode scalar value.
- `HostFormData.FormData.Append`: does not model the conversion of a `Blob` into a `File` named "blob". A file entry keeps only its bytes.
- `Transport.RawSend`: does not model a thrown `null` or `undefined`, on which `toString()` itself would throw. Hosts reject `fetch` with an error object.
- The at-most-once reading of a response body is enforced by types: the readers take a response whose body is the unread host response, and they return a response whose body is the value read.
- bin/build.js is build tooling: it clones dependencies and runs the compiler. It is not part of this model.

## Findings

| source | as written | input that shows it | evidently intended | confidence | as-written member | corrected member |
|---|---|---|---|---|---|---|
| src/gleam_fetch_ffi.mjs:48 | the statement deletes a JavaScript property named `content-type` from the `Headers` object, and the header list is left as it was | a POST form-data request with the header `("content-type", "multipart/form-data")` renders with that header still present, so the host does not add the boundary | no `content-type` header in any case, so that the host writes one with the multipart boundary (the comment at line 47) | high; not executed | `RequestRender.ContentTypeSurvivesAsWritten` | `RequestRender.FormDataToFetchRequest` |
