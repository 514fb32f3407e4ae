# multipartstreamer in Dafny

This project models `MultipartStreamer`, a Go builder for multipart/form-data
request bodies (RFC 7578, with the boundary syntax of section 5.1.1 of RFC 2046).
The builder can carry one large file without loading it into memory. The body is
three segments joined in order:

- the header buffer: the encoded form fields, then the file part's header;
- the file reader: read lazily, with its size declared up front;
- the closing buffer: `"\r\n--" + boundary + "--\r\n"`, fixed when the streamer is built.

`Len` adds the three sizes so the caller can set Content-Length. `GetReader`
chains the three segments into one stream.

Everything is in `multipartstreamer.dfy`, module `Multipart`:

- `MultipartStreamer` is a class. Its fields are the Go struct's:
  - `contentType`, the exported `ContentType`;
  - `writer`, the multipart writer;
  - `body`, the header buffer;
  - `closing`, the closing buffer;
  - `source`, the file reader;
  - `contentLength`, the declared size.
- `Valid()` says that `contentType` and `closing` both carry the writer's boundary.
  No operation changes either of them.
- A Go string is a byte sequence. Here it is a Dafny `string` whose characters
  each stand for one byte, so `|s|` is Go's `len(s)`.
- `int64` is a subset type. `Len` wraps around as Go's int64 addition does (`Wrap64`).
- `mime/multipart` is not part of this model. `PartWriter` stands for it: it holds
  the writer's boundary and an abstract function `emit`. `emit` gives the bytes
  appended for a part, given everything already in the buffer, plus the error the
  call reports, if any. So the byte format of a field part and of a file-part
  header stays uninterpreted.
- Go's `map[string]string` has no fixed iteration order. `WriteFields` takes a
  sequence of pairs, which stands for whichever order the map iteration produced.
- `os.Open` and `Stat` become a `FileSystem` value. It maps a path to either an
  error or a `File`, which holds the reader and the result of Stat. The file's
  contents and its stat size are independent. That is why the length property
  needs the proviso that the reader holds exactly the declared size.
- `filepath.Base` is an abstract function `base`, passed to `WriteFile` and `WriteReader`.
- An `io.Reader` over the file is a `Source`: the bytes it yields, then EOF or an error.
- `GetReader` is a function returning a `Stream` value, so building the stream
  reads nothing. Reading is modelled in two ways:
  - `Drain` gives everything the stream yields, as `ioutil.ReadAll` would return it;
  - `Pull` is one `Read` call on the chained reader, and `ReadAll` repeats it,
    giving each call its own buffer size, as `ioutil.ReadAll` does when it grows its buffer.
  `ReadAllIsDrain` proves the two agree whatever the sequence of buffer sizes.

Behaviour of the code worth noting:

- With no file declared, the reader is nil. `io.MultiReader` then panics as soon
  as the header buffer is exhausted (multipartstreamer.go:101). It does not yield
  the header and then the closing buffer. `Drain` and `Pull` model this as
  `Panicked` and `NilRead`.
- A second `WriteReader` replaces the reader and the size. It leaves the first
  file header in the buffer (`RedeclaredFile`).
- `WriteFile` applies `filepath.Base` before calling `WriteReader`, and
  `WriteReader` applies it again (multipartstreamer.go:72, 79). The model keeps
  both calls, as `base(base(filename))`.

## Model

| member | source | states |
|---|---|---|
| `Multipart.MultipartStreamer.New` | multipartstreamer.go:27-38 | the content type is exactly `"multipart/form-data; boundary=" + boundary`; the closing buffer is exactly `"\r\n--" + boundary + "--\r\n"`; the header buffer is empty, there is no reader, and the declared size is 0 |
| `Multipart.ContentTypeFor` | multipartstreamer.go:31-32 | the header value has the prefix's length plus the boundary's, and the boundary can be read back out of it |
| `Multipart.ContentTypeRoundTrip` | multipartstreamer.go:32 | a content-type value carries boundary b exactly when it equals the one built from b (both directions) |
| `Multipart.CloseDelimiter` | multipartstreamer.go:34-35 | the closing buffer is 8 bytes longer than the boundary, and it gives back that boundary |
| `Multipart.CloseDelimiterRoundTrip` | multipartstreamer.go:34 | a closing delimiter closes boundary b exactly when it equals the one built from b (both directions) |
| `Multipart.EmitPart` | multipartstreamer.go:47 | one writer call only appends to the header buffer, and it returns the error the writer reported |
| `Multipart.AppendFields` | multipartstreamer.go:43-54 | writing a list of fields never removes or rewrites bytes already in the buffer |
| `Multipart.AppendFieldsConcat` | multipartstreamer.go:46-51 | writing f then g writes f's parts first, in order; if f fails, g is never written and f's result stands |
| `Multipart.AppendFieldsStopsAtError` | multipartstreamer.go:47-50 | once an entry fails, the later entries are not written and the parts before it are kept |
| `Multipart.MultipartStreamer.WriteFields` | multipartstreamer.go:43-54 | the loop with early return leaves the buffer and the error that `AppendFields` gives; the buffer only grows |
| `Multipart.MultipartStreamer.WriteFile` | multipartstreamer.go:61-73 | an open or stat error is returned and nothing changes; otherwise the base name and the stat size go to `WriteReader` |
| `Multipart.MultipartStreamer.WriteReader` | multipartstreamer.go:75-81 | the reader and size are replaced whatever happens; the file-part header is appended after the earlier bytes; the writer's error is returned |
| `Multipart.RedeclaredFile` | multipartstreamer.go:75-80 | after two declarations the stream reads the second source; the header segment is the first file header followed by the second; Len is the second size plus the two buffers (as an int64), so the first size is not counted |
| `Multipart.MultipartStreamer.Boundary` | multipartstreamer.go:90-92 | the boundary returned is the one in the content type and the one the closing buffer closes |
| `Multipart.Wrap64` | multipartstreamer.go:96 | the int64 result equals the exact sum when the sum fits in an int64 |
| `Multipart.Wrap64Congruent` | multipartstreamer.go:96 | the int64 result differs from the exact sum by a multiple of 2^64, as two's-complement addition does |
| `Multipart.MultipartStreamer.Len` | multipartstreamer.go:95-97 | if the sum fits, Len minus the declared size is the two buffers' length; if the reader holds exactly the declared size, the stream completes and Len is the number of bytes it yields (when that number fits in an int64) |
| `Multipart.DeclaredLengthIsStreamLength` | multipartstreamer.go:96 | a stream whose source holds exactly `size` bytes completes, and its length is `size + header + closing` as an int64 |
| `Multipart.MultipartStreamer.GetReader` | multipartstreamer.go:100-103 | the stream yields the header buffer, then the source's bytes, then the closing buffer; a read error stops it after the source's bytes; a nil reader panics right after the header |
| `Multipart.Drain` | multipartstreamer.go:101 | the header always comes first; the read completes exactly when a reader is set and does not fail; a read error returns exactly the header and the source's bytes with the source's error; a completed read has the three segments' total length |
| `Multipart.Pull` | multipartstreamer.go:101 | one Read that returns data yields between 1 and n bytes, and what remains shrinks by exactly that much |
| `Multipart.PullIsLazy` | multipartstreamer.go:23-26 | while the header buffer holds bytes, a Read is served from it alone and leaves the file source and closing buffer untouched |
| `Multipart.PullEof` | multipartstreamer.go:101 | a Read reports EOF exactly when all three segments are exhausted and the file source ended without error |
| `Multipart.ReadAll` | multipartstreamer_test.go:29 | `ioutil.ReadAll` over the chained reader, each Read with its own buffer size: it never yields more bytes than the stream holds, and a completed read yields exactly all of them |
| `Multipart.ReadAllIsDrain` | multipartstreamer.go:101 | pulling the chained stream to its end, whatever buffer size each successive Read is given, yields the same as reading the header, then the file, then the closing buffer |
| `Multipart.MultipartStreamer.SetupRequest` | multipartstreamer.go:84-88 | the request gets the stream as its body, one Content-Type header and Len, the declared size plus both buffers as an int64, as its ContentLength; since nothing has been read, that length is the number of bytes the body yields |
| `Multipart.PrepareUpload` | multipartstreamer_test.go:18-22 | fields, then a file, on a fresh streamer: the error returned is the first field error, else the open error, else the stat error, else the file-header error; on success the streamer holds the opened file's reader and its stat size, and its header buffer is the field parts followed by the file header for `base(base(path))` |
| `Multipart.Upload` | multipartstreamer_test.go:16-27 | fields, then a file, then the request set up: the error returned is the first field error, else the open error, else the stat error, else the file-header error, and there is none exactly when all of these succeed; on success the header is the streamer's content type, the body reads the opened file, and its header segment is the field parts followed by the file header for `base(base(path))`; the request's ContentLength is the stat size plus that header segment plus the closing buffer, so, when the sum fits in an int64, ContentLength minus the file size depends only on the fields, the key and the file name; if the file holds its stat size, ContentLength is the body's length |

## Left out

- Random boundary generation in `multipart.NewWriter` (multipartstreamer.go:30-31): the boundary arrives with the `PartWriter` given to `New`.
- The bytes `WriteField` and `CreateFormFile` produce (multipartstreamer.go:47, 79): they belong to `mime/multipart`, which is not part of this model, so `emit` is abstract.
- The internals of `filepath.Base`: it is a library function, passed in as `base`.
- File system access: `os.Open` and `Stat` (multipartstreamer.go:62-70) are the `FileSystem` value given to `WriteFile`.
- Closing file handles, the `ioutil.NopCloser` wrapping (multipartstreamer.go:102), and the handle left open when `Stat` fails: these are resource concerns.
- `http.Request` mechanics: `Request` keeps only the body, the added headers in order, and the content length. `Header.Add`'s key canonicalisation is not modelled.
- Multipart.MultipartStreamer.GetReader: the Go reader aliases the live buffers, and reading it drains them in place. The model returns a snapshot `Stream` value, so writes made after `GetReader` and the draining of the buffers are not captured.
- Multipart.Pull: a single Read of the file is taken to return as many bytes as the buffer takes. This assumption is limited to `Pull`'s one-step result: a file Read that returns fewer bytes is the same step as a Read given a smaller buffer, and `ReadAllIsDrain` holds for every sequence of buffer sizes. Only a reader that returns no bytes and no error is outside the model.
- The exported `ContentType` field can be reassigned by callers. No operation of the package does so, and the model does not model outside writes.
- A nil reader passed explicitly to `WriteReader`: `WriteReader` takes a `Source`. A nil reader arises only when no file was declared.
- `Write(key, path, fields)`: multipartstreamer_test.go:19 calls it, but multipartstreamer.go does not define it. `Upload` models the same sequence with `WriteFields` and `WriteFile`.
- End-to-end decoding with `multipart.NewReader` (multipartstreamer_test.go:34-75): it depends on the encoder and decoder of `mime/multipart`. That test also expects the full path as the file name, but multipartstreamer.go:79 passes the base name.
- The test's literal 398 (multipartstreamer_test.go:25): it depends on the unmodelled encoding. `Upload` proves only its shape: Len minus the file size is the header plus the closing buffer.
