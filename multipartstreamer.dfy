/*
 * A model of the MultipartStreamer builder: a multipart/form-data body
 * (RFC 7578, boundaries as in section 5.1.1 of RFC 2046) assembled from three
 * segments -- an in-memory header buffer, a lazily read file source whose size
 * is declared up front, and a fixed closing-boundary buffer.
 *
 * A Go string is a sequence of bytes; here it is a Dafny `string` whose every
 * character stands for one byte, so `|s|` is Go's `len(s)`.
 */
module Multipart {

  /* ---------------------------------------------------------------------- */
  /* Go values                                                              */
  /* ---------------------------------------------------------------------- */

  const Int64Bound: int := 0x8000_0000_0000_0000
  const Int64Modulus: int := 0x1_0000_0000_0000_0000

  /** Go's int64. */
  type int64 = x: int | -0x8000_0000_0000_0000 <= x < 0x8000_0000_0000_0000

  predicate InInt64(x: int) {
    -Int64Bound <= x < Int64Bound
  }

  /** Two's-complement wrap-around of an int64 sum: 2^64 is added or taken
      away until the value lies in the int64 range. */
  function Wrap64(x: int): (r: int64)
    ensures InInt64(x) ==> r == x
    decreases if x < 0 then -x else x + 1
  {
    if x >= Int64Bound then Wrap64(x - Int64Modulus)
    else if x < -Int64Bound then Wrap64(x + Int64Modulus)
    else x
  }

  /** The wrapped value differs from the exact one by a multiple of 2^64. */
  lemma {:induction false} Wrap64Congruent(x: int)
    ensures (Wrap64(x) - x) % Int64Modulus == 0
    decreases if x < 0 then -x else x + 1
  {
    if x >= Int64Bound {
      Wrap64Congruent(x - Int64Modulus);
    } else if x < -Int64Bound {
      Wrap64Congruent(x + Int64Modulus);
    }
  }

  function Min(a: int, b: int): int {
    if a <= b then a else b
  }

  datatype Option<T> = None | Some(value: T)

  /** A Go `error`: its contents belong to whoever raised it. */
  datatype Error = Error(message: string)

  datatype Result<T> = Success(value: T) | Failure(error: Error)

  /* ---------------------------------------------------------------------- */
  /* Collaborators that are not part of this model                          */
  /* ---------------------------------------------------------------------- */

  /** The two kinds of part the streamer asks the multipart writer for. */
  datatype Part =
    | FormField(name: string, value: string)    // multipart.Writer.WriteField
    | FormFile(name: string, filename: string)  // multipart.Writer.CreateFormFile: the part header only

  /** What one call of the multipart writer appended to the buffer, and the
      error it reported, if any (bytes written before an error stay written). */
  datatype Emitted = Emitted(bytes: string, failure: Option<Error>)

  /** The multipart writer bound to the header buffer: its boundary, and the
      bytes it appends for a part, given everything written to the buffer so
      far.  Its byte format belongs to mime/multipart and stays abstract. */
  datatype PartWriter = PartWriter(boundary: string, emit: (string, Part) -> Emitted)

  /** An io.Reader over a file: the bytes it yields, then EOF or an error. */
  datatype Source = Source(data: string, failure: Option<Error>)

  /** An opened file: its contents as a reader, and the result of Stat. */
  datatype File = File(contents: Source, stat: Result<int64>)

  /** The file system as seen by os.Open at the moment of the call. */
  datatype FileSystem = FileSystem(open: string -> Result<File>)

  /* ---------------------------------------------------------------------- */
  /* The fixed strings built by New                                         */
  /* ---------------------------------------------------------------------- */

  const ContentTypePrefix: string := "multipart/form-data; boundary="

  /** The Content-Type header value for a boundary. */
  function ContentTypeFor(boundary: string): (ct: string)
    ensures |ct| == |ContentTypePrefix| + |boundary|
    ensures BoundaryOf(ct) == Some(boundary)
  {
    ContentTypePrefix + boundary
  }

  /** The boundary parameter of a multipart/form-data Content-Type value. */
  function BoundaryOf(ct: string): Option<string> {
    if |ContentTypePrefix| <= |ct| && ct[..|ContentTypePrefix|] == ContentTypePrefix
    then Some(ct[|ContentTypePrefix|..])
    else None
  }

  lemma ContentTypeRoundTrip(ct: string, boundary: string)
    ensures BoundaryOf(ct) == Some(boundary) <==> ct == ContentTypeFor(boundary)
  {
  }

  /** The closing delimiter written after the last part. */
  function CloseDelimiter(boundary: string): (c: string)
    ensures |c| == |boundary| + 8
    ensures ClosedBoundary(c) == Some(boundary)
  {
    "\r\n--" + boundary + "--\r\n"
  }

  /** The boundary a closing delimiter closes. */
  function ClosedBoundary(c: string): Option<string> {
    if 8 <= |c| && c[..4] == "\r\n--" && c[|c| - 4..] == "--\r\n"
    then Some(c[4..|c| - 4])
    else None
  }

  lemma CloseDelimiterRoundTrip(c: string, boundary: string)
    ensures ClosedBoundary(c) == Some(boundary) <==> c == CloseDelimiter(boundary)
  {
  }

  /* ---------------------------------------------------------------------- */
  /* The header buffer                                                      */
  /* ---------------------------------------------------------------------- */

  /** The header buffer after a write, and the error the write returned. */
  datatype Written = Written(body: string, failure: Option<Error>)

  /** One writer call: its bytes go after everything already in the buffer. */
  function EmitPart(w: PartWriter, body: string, part: Part): (r: Written)
    ensures body <= r.body
    ensures r.failure == w.emit(body, part).failure
  {
    var e := w.emit(body, part);
    Written(body + e.bytes, e.failure)
  }

  /** Writing form fields one after another, stopping at the first error. */
  function AppendFields(w: PartWriter, body: string, fields: seq<(string, string)>): (r: Written)
    ensures body <= r.body
    decreases |fields|
  {
    if fields == [] then Written(body, None)
    else
      var r := EmitPart(w, body, FormField(fields[0].0, fields[0].1));
      if r.failure.Some? then r else AppendFields(w, r.body, fields[1..])
  }

  /** Writing `f + g` is writing `f`, then -- unless that failed -- writing `g`
      after it: parts go in order, and nothing follows the first error. */
  lemma {:induction false} AppendFieldsConcat(w: PartWriter, body: string, f: seq<(string, string)>, g: seq<(string, string)>)
    ensures AppendFields(w, body, f + g) ==
            (var r := AppendFields(w, body, f);
             if r.failure.Some? then r else AppendFields(w, r.body, g))
    decreases |f|
  {
    if f == [] {
      assert f + g == g;
    } else {
      assert (f + g)[0] == f[0];
      assert (f + g)[1..] == f[1..] + g;
      var r := EmitPart(w, body, FormField(f[0].0, f[0].1));
      if r.failure.None? {
        AppendFieldsConcat(w, r.body, f[1..], g);
      }
    }
  }

  /** Once an entry fails, the entries after it are never written and the
      parts before it are kept. */
  lemma AppendFieldsStopsAtError(w: PartWriter, body: string, fields: seq<(string, string)>, k: nat)
    requires k <= |fields|
    requires AppendFields(w, body, fields[..k]).failure.Some?
    ensures AppendFields(w, body, fields) == AppendFields(w, body, fields[..k])
  {
    assert fields == fields[..k] + fields[k..];
    AppendFieldsConcat(w, body, fields[..k], fields[k..]);
  }

  /* ---------------------------------------------------------------------- */
  /* The combined stream                                                    */
  /* ---------------------------------------------------------------------- */

  /** io.MultiReader(header buffer, file reader, closing buffer); `file` is
      None when the reader is nil. */
  datatype Stream = Stream(head: string, file: Option<Source>, tail: string)

  /** What reading a stream to its end gives: every byte before EOF, or the
      bytes before a read error, or the bytes before a nil-reader panic. */
  datatype ReadOutcome =
    | Complete(bytes: string)
    | Failed(bytes: string, error: Error)
    | Panicked(bytes: string)

  function FileBytes(s: Stream): string {
    if s.file.Some? then s.file.value.data else []
  }

  /** The bytes a stream still holds. */
  function Size(s: Stream): nat {
    |s.head| + |FileBytes(s)| + |s.tail|
  }

  /** Reading a stream to its end, segment by segment. */
  function Drain(s: Stream): (r: ReadOutcome)
    ensures s.head <= r.bytes
    ensures r.Complete? <==> s.file.Some? && s.file.value.failure.None?
    ensures r.Panicked? <==> s.file.None?
    ensures r.Complete? ==> |r.bytes| == Size(s)
    ensures r.Failed? ==> r.bytes == s.head + FileBytes(s) && r.error == s.file.value.failure.value
  {
    match s.file
    case None => Panicked(s.head)
    case Some(src) =>
      if src.failure.Some? then Failed(s.head + src.data, src.failure.value)
      else Complete(s.head + src.data + s.tail)
  }

  /** The result of one Read call with a buffer of a given length. */
  datatype Pulled =
    | Chunk(bytes: string, rest: Stream)
    | Eof
    | ReadError(error: Error)
    | NilRead

  /** One Read of at most `n` bytes: from the header buffer while it holds
      bytes, then from the file, then from the closing buffer. */
  function Pull(s: Stream, n: nat): (r: Pulled)
    requires n > 0
    ensures r.Chunk? ==> 0 < |r.bytes| <= n && Size(r.rest) + |r.bytes| == Size(s)
  {
    if s.head != [] then
      var k := Min(n, |s.head|);
      Chunk(s.head[..k], s.(head := s.head[k..]))
    else match s.file
      case None => NilRead
      case Some(src) =>
        if src.data != [] then
          var k := Min(n, |src.data|);
          Chunk(src.data[..k], s.(file := Some(src.(data := src.data[k..]))))
        else if src.failure.Some? then ReadError(src.failure.value)
        else if s.tail != [] then
          var k := Min(n, |s.tail|);
          Chunk(s.tail[..k], s.(tail := s.tail[k..]))
        else Eof
  }

  function Prepend(b: string, r: ReadOutcome): ReadOutcome {
    match r
    case Complete(bytes) => Complete(b + bytes)
    case Failed(bytes, e) => Failed(b + bytes, e)
    case Panicked(bytes) => Panicked(b + bytes)
  }

  /** ioutil.ReadAll over the chained reader: the i-th Read is given a buffer
      of `sizes(i)` bytes, and reading goes on until EOF or an error. */
  function ReadAll(s: Stream, sizes: nat -> nat, i: nat): (r: ReadOutcome)
    requires forall j :: sizes(j) > 0
    ensures |r.bytes| <= Size(s)
    ensures r.Complete? ==> |r.bytes| == Size(s)
    decreases Size(s)
  {
    match Pull(s, sizes(i))
    case Chunk(b, rest) => Prepend(b, ReadAll(rest, sizes, i + 1))
    case Eof => Complete([])
    case ReadError(e) => Failed([], e)
    case NilRead => Panicked([])
  }

  /** While the header buffer holds bytes, a Read is served from it alone and
      leaves the file source untouched: the file is read lazily. */
  lemma PullIsLazy(s: Stream, n: nat)
    requires n > 0 && s.head != []
    ensures Pull(s, n).Chunk? && Pull(s, n).bytes <= s.head
    ensures Pull(s, n).rest.file == s.file && Pull(s, n).rest.tail == s.tail
  {
  }

  /** A Read reports EOF exactly when every segment is exhausted and the
      file source ended without error. */
  lemma PullEof(s: Stream, n: nat)
    requires n > 0
    ensures Pull(s, n).Eof? <==> Size(s) == 0 && s.file.Some? && s.file.value.failure.None?
  {
  }

  /** Whatever buffer sizes the successive Reads are given, pulling a stream
      to its end yields the header, then the file, then the closing buffer. */
  lemma {:induction false} ReadAllIsDrain(s: Stream, sizes: nat -> nat, i: nat)
    requires forall j :: sizes(j) > 0
    ensures ReadAll(s, sizes, i) == Drain(s)
    decreases Size(s)
  {
    var n := sizes(i);
    if s.head != [] {
      var k := Min(n, |s.head|);
      ReadAllIsDrain(s.(head := s.head[k..]), sizes, i + 1);
      ReadAllHeadStep(s, sizes, i, k);
    } else if s.file.Some? && s.file.value.data != [] {
      var src := s.file.value;
      var k := Min(n, |src.data|);
      ReadAllIsDrain(s.(file := Some(src.(data := src.data[k..]))), sizes, i + 1);
      ReadAllFileStep(s, sizes, i, k);
    } else if s.file.Some? && s.file.value.failure.None? && s.tail != [] {
      var k := Min(n, |s.tail|);
      ReadAllIsDrain(s.(tail := s.tail[k..]), sizes, i + 1);
      ReadAllTailStep(s, sizes, i, k);
    }
  }

  /** One pull from the header buffer. */
  lemma ReadAllHeadStep(s: Stream, sizes: nat -> nat, i: nat, k: nat)
    requires forall j :: sizes(j) > 0
    requires s.head != [] && k == Min(sizes(i), |s.head|)
    requires ReadAll(s.(head := s.head[k..]), sizes, i + 1) == Drain(s.(head := s.head[k..]))
    ensures ReadAll(s, sizes, i) == Drain(s)
  {
    var rest := s.(head := s.head[k..]);
    assert Pull(s, sizes(i)) == Chunk(s.head[..k], rest);
    assert ReadAll(s, sizes, i) == Prepend(s.head[..k], Drain(rest));
    SplitAt(s.head, k);
    PrependDrain(s.head[..k], rest);
  }

  /** One pull from the file source, once the header buffer is exhausted. */
  lemma ReadAllFileStep(s: Stream, sizes: nat -> nat, i: nat, k: nat)
    requires forall j :: sizes(j) > 0
    requires s.head == [] && s.file.Some? && s.file.value.data != []
    requires k == Min(sizes(i), |s.file.value.data|)
    requires var src := s.file.value;
             ReadAll(s.(file := Some(src.(data := src.data[k..]))), sizes, i + 1) ==
             Drain(s.(file := Some(src.(data := src.data[k..]))))
    ensures ReadAll(s, sizes, i) == Drain(s)
  {
    var src := s.file.value;
    var rest := s.(file := Some(src.(data := src.data[k..])));
    assert Pull(s, sizes(i)) == Chunk(src.data[..k], rest);
    assert ReadAll(s, sizes, i) == Prepend(src.data[..k], Drain(rest));
    SplitAt(src.data, k);
    PrependFileDrain(src.data[..k], rest);
  }

  /** One pull from the closing buffer, once the header and file are exhausted. */
  lemma ReadAllTailStep(s: Stream, sizes: nat -> nat, i: nat, k: nat)
    requires forall j :: sizes(j) > 0
    requires s.head == [] && s.file.Some? && s.file.value == Source([], None)
    requires s.tail != [] && k == Min(sizes(i), |s.tail|)
    requires ReadAll(s.(tail := s.tail[k..]), sizes, i + 1) == Drain(s.(tail := s.tail[k..]))
    ensures ReadAll(s, sizes, i) == Drain(s)
  {
    var rest := s.(tail := s.tail[k..]);
    assert Pull(s, sizes(i)) == Chunk(s.tail[..k], rest);
    assert ReadAll(s, sizes, i) == Prepend(s.tail[..k], Drain(rest));
    assert s.head + s.file.value.data == [];
    assert Drain(rest) == Complete(s.tail[k..]);
    assert Drain(s) == Complete(s.tail);
    SplitAt(s.tail, k);
  }

  /** A segment is its first k bytes followed by the rest. */
  lemma SplitAt(t: string, k: nat)
    requires k <= |t|
    ensures t[..k] + t[k..] == t
  {
  }

  /** Bytes read before the rest of a stream are bytes at the front of its header. */
  lemma PrependDrain(b: string, s: Stream)
    ensures Prepend(b, Drain(s)) == Drain(s.(head := b + s.head))
  {
  }

  /** Bytes read before the rest of the file are bytes at the front of the file. */
  lemma PrependFileDrain(b: string, s: Stream)
    requires s.head == [] && s.file.Some?
    ensures Prepend(b, Drain(s)) == Drain(s.(file := Some(s.file.value.(data := b + s.file.value.data))))
  {
  }

  /** The source yields exactly `size` bytes and then EOF. */
  predicate HoldsExactly(src: Source, size: int) {
    src.failure.None? && |src.data| == size
  }

  /** If the file yields exactly the declared size, the declared length --
      the size plus both buffers, as an int64 -- is the number of bytes the
      stream yields, unless that number does not fit in an int64. */
  lemma DeclaredLengthIsStreamLength(head: string, src: Source, size: int64, tail: string)
    requires HoldsExactly(src, size)
    ensures Drain(Stream(head, Some(src), tail)).Complete?
    ensures |Drain(Stream(head, Some(src), tail)).bytes| < Int64Bound ==>
              Wrap64(size + |head| + |tail|) == |Drain(Stream(head, Some(src), tail)).bytes|
  {
  }

  /* ---------------------------------------------------------------------- */
  /* The streamer                                                           */
  /* ---------------------------------------------------------------------- */

  /** The outbound request, as far as SetupRequest touches it. */
  class Request {
    var body: Option<Stream>
    var header: seq<(string, string)>
    var contentLength: int64

    constructor ()
      ensures body == None && header == [] && contentLength == 0
    {
      body := None;
      header := [];
      contentLength := 0;
    }
  }

  class MultipartStreamer {
    var contentType: string
    const writer: PartWriter
    var body: string
    var closing: string
    var source: Option<Source>
    var contentLength: int64

    /** The Content-Type and the closing buffer both carry the writer's boundary. */
    ghost predicate Valid()
      reads this
    {
      contentType == ContentTypeFor(writer.boundary) &&
      closing == CloseDelimiter(writer.boundary)
    }

    /** The reader holds exactly the declared number of bytes. */
    predicate HoldsDeclaredLength()
      reads this
    {
      source.Some? && HoldsExactly(source.value, contentLength)
    }

    /** `writer` is the fresh multipart writer, with its generated boundary. */
    constructor New(writer: PartWriter)
      ensures Valid()
      ensures this.writer == writer
      ensures contentType == "multipart/form-data; boundary=" + writer.boundary
      ensures closing == "\r\n--" + writer.boundary + "--\r\n"
      ensures body == [] && source == None && contentLength == 0
    {
      this.writer := writer;
      body := [];
      contentType := ContentTypeFor(writer.boundary);
      closing := CloseDelimiter(writer.boundary);
      source := None;
      contentLength := 0;
    }

    /** Writes each entry as a form field, in order, and returns the first
        error; the parts written before it stay in the buffer. */
    method WriteFields(fields: seq<(string, string)>) returns (err: Option<Error>)
      requires Valid()
      modifies this`body
      ensures Valid()
      ensures old(body) <= body
      ensures Written(body, err) == AppendFields(writer, old(body), fields)
    {
      var i := 0;
      while i < |fields|
        invariant 0 <= i <= |fields|
        invariant old(body) <= body
        invariant AppendFields(writer, body, fields[i..]) == AppendFields(writer, old(body), fields)
      {
        var e := writer.emit(body, FormField(fields[i].0, fields[i].1));
        body := body + e.bytes;
        if e.failure.Some? {
          return e.failure;
        }
        i := i + 1;
      }
      return None;
    }

    /** Opens the file and stats it; on success declares it with its base
        name and size.  An open or stat error changes nothing. */
    method WriteFile(key: string, filename: string, fs: FileSystem, base: string -> string)
      returns (err: Option<Error>)
      requires Valid()
      modifies this`source, this`contentLength, this`body
      ensures Valid()
      ensures match fs.open(filename)
        case Failure(e) => err == Some(e) && unchanged(this)
        case Success(f) =>
          match f.stat
          case Failure(e) => err == Some(e) && unchanged(this)
          case Success(size) =>
            && source == Some(f.contents) && contentLength == size
            && Written(body, err) == EmitPart(writer, old(body), FormFile(key, base(base(filename))))
    {
      var found := fs.open(filename);
      if found.Failure? {
        return Some(found.error);
      }
      var fh := found.value;
      if fh.stat.Failure? {
        return Some(fh.stat.error);
      }
      err := WriteReader(key, base(filename), fh.stat.value, fh.contents, base);
    }

    /** Replaces the file source and its declared size, then appends the file
        part's header; the earlier buffer contents stay, whether or not the
        header write fails. */
    method WriteReader(key: string, filename: string, size: int64, reader: Source, base: string -> string)
      returns (err: Option<Error>)
      requires Valid()
      modifies this`source, this`contentLength, this`body
      ensures Valid()
      ensures source == Some(reader) && contentLength == size
      ensures old(body) <= body
      ensures Written(body, err) == EmitPart(writer, old(body), FormFile(key, base(filename)))
    {
      source := Some(reader);
      contentLength := size;
      var e := writer.emit(body, FormFile(key, base(filename)));
      body := body + e.bytes;
      err := e.failure;
    }

    /** Hands the request the combined stream, the Content-Type and the
        length computed before anything is read. */
    method SetupRequest(req: Request)
      requires Valid()
      modifies req
      ensures req.body == Some(GetReader())
      ensures req.header == old(req.header) + [("Content-Type", contentType)]
      ensures req.contentLength == Len() == Wrap64(contentLength + |body| + |closing|)
      ensures HoldsDeclaredLength() && |Drain(GetReader()).bytes| < Int64Bound ==>
                req.contentLength == |Drain(req.body.value).bytes|
    {
      req.body := Some(GetReader());
      req.header := req.header + [("Content-Type", contentType)];
      req.contentLength := Len();
    }

    function Boundary(): (b: string)
      requires Valid()
      reads this
      ensures BoundaryOf(contentType) == Some(b)
      ensures ClosedBoundary(closing) == Some(b)
    {
      writer.boundary
    }

    /** The declared size plus both buffers, with int64 wrap-around. */
    function Len(): (n: int64)
      reads this
      ensures InInt64(contentLength + |body| + |closing|) ==> n - contentLength == |body| + |closing|
      ensures HoldsDeclaredLength() ==> Drain(GetReader()).Complete?
      ensures HoldsDeclaredLength() && |Drain(GetReader()).bytes| < Int64Bound ==>
                n == |Drain(GetReader()).bytes|
    {
      if HoldsDeclaredLength() then
        DeclaredLengthIsStreamLength(body, source.value, contentLength, closing);
        Wrap64(contentLength + |body| + |closing|)
      else
        Wrap64(contentLength + |body| + |closing|)
    }

    /** The combined stream; building it reads nothing. */
    function GetReader(): (s: Stream)
      reads this
      ensures source.None? ==> Drain(s) == Panicked(body)
      ensures source.Some? && source.value.failure.None? ==>
                Drain(s) == Complete(body + source.value.data + closing)
      ensures source.Some? && source.value.failure.Some? ==>
                Drain(s) == Failed(body + source.value.data, source.value.failure.value)
    {
      Stream(body, source, closing)
    }
  }

  /* ---------------------------------------------------------------------- */
  /* Clients                                                                */
  /* ---------------------------------------------------------------------- */

  /** A second WriteReader replaces the source and size, but the first file
      header stays in the header buffer. */
  method RedeclaredFile(w: PartWriter, base: string -> string,
                        key1: string, name1: string, size1: int64, src1: Source,
                        key2: string, name2: string, size2: int64, src2: Source)
    returns (stream: Stream, len: int64)
    ensures stream.file == Some(src2)
    ensures EmitPart(w, [], FormFile(key1, base(name1))).body <= stream.head
    ensures stream.tail == CloseDelimiter(w.boundary)
    ensures stream.head == EmitPart(w, EmitPart(w, [], FormFile(key1, base(name1))).body,
                                    FormFile(key2, base(name2))).body
    ensures len == Wrap64(size2 + |stream.head| + |stream.tail|)
    ensures HoldsExactly(src2, size2) && |Drain(stream).bytes| < Int64Bound ==> len == |Drain(stream).bytes|
  {
    var m := new MultipartStreamer.New(w);
    var _ := m.WriteReader(key1, name1, size1, src1, base);
    var _ := m.WriteReader(key2, name2, size2, src2, base);
    stream := m.GetReader();
    len := m.Len();
  }

  /** Fields, then a file from the file system, written to a fresh streamer.
      The error is the first one met; on success the streamer holds the opened
      file, its stat size, and the field parts followed by the file header. */
  method PrepareUpload(w: PartWriter, fields: seq<(string, string)>, key: string, path: string,
                       fs: FileSystem, base: string -> string)
    returns (err: Option<Error>, m: MultipartStreamer)
    ensures err ==
            (var fw := AppendFields(w, [], fields);
             if fw.failure.Some? then fw.failure
             else match fs.open(path)
               case Failure(e) => Some(e)
               case Success(f) =>
                 match f.stat
                 case Failure(e) => Some(e)
                 case Success(_) => w.emit(fw.body, FormFile(key, base(base(path)))).failure)
    ensures m.Valid() && m.writer == w
    ensures err.None? ==> fs.open(path).Success? && fs.open(path).value.stat.Success?
    ensures err.None? ==>
              && m.source == Some(fs.open(path).value.contents)
              && m.contentLength == fs.open(path).value.stat.value
              && m.body == EmitPart(w, AppendFields(w, [], fields).body, FormFile(key, base(base(path)))).body
  {
    m := new MultipartStreamer.New(w);
    ghost var fw := AppendFields(w, [], fields);
    err := m.WriteFields(fields);
    if err.Some? {
      assert err == fw.failure;
      return;
    }
    assert m.body == fw.body && fw.failure.None?;
    err := m.WriteFile(key, path, fs, base);
  }

  /** Fields, then a file from the file system, then the request set up.  On
      success the header segment is the field parts followed by the file
      header, so the request's Content-Length less the file size depends only
      on the fields, the key and the file name; and when the file holds its
      stat size, the Content-Length is the number of bytes the body yields. */
  method Upload(w: PartWriter, fields: seq<(string, string)>, key: string, path: string,
                fs: FileSystem, base: string -> string)
    returns (err: Option<Error>, req: Request)
    ensures err ==
            (var fw := AppendFields(w, [], fields);
             if fw.failure.Some? then fw.failure
             else match fs.open(path)
               case Failure(e) => Some(e)
               case Success(f) =>
                 match f.stat
                 case Failure(e) => Some(e)
                 case Success(_) => w.emit(fw.body, FormFile(key, base(base(path)))).failure)
    ensures err.None? ==> fs.open(path).Success? && fs.open(path).value.stat.Success?
    ensures err.None? ==> req.body.Some? && req.header == [("Content-Type", ContentTypeFor(w.boundary))]
    ensures err.None? ==> req.body.value.file == Some(fs.open(path).value.contents)
    ensures err.None? ==> req.body.value.tail == CloseDelimiter(w.boundary)
    ensures err.None? ==> AppendFields(w, [], fields).failure.None?
    ensures err.None? ==>
              req.body.value.head ==
              EmitPart(w, AppendFields(w, [], fields).body, FormFile(key, base(base(path)))).body
    ensures err.None? ==>
              req.contentLength ==
              Wrap64(fs.open(path).value.stat.value + |req.body.value.head| + |CloseDelimiter(w.boundary)|)
    ensures err.None? &&
            InInt64(fs.open(path).value.stat.value + |req.body.value.head| + |CloseDelimiter(w.boundary)|) ==>
              req.contentLength - fs.open(path).value.stat.value
                == |req.body.value.head| + |CloseDelimiter(w.boundary)|
    ensures err.None? && HoldsExactly(fs.open(path).value.contents, fs.open(path).value.stat.value) ==>
              Drain(req.body.value).Complete? &&
              (|Drain(req.body.value).bytes| < Int64Bound ==>
                 req.contentLength == |Drain(req.body.value).bytes|)
  {
    var m;
    err, m := PrepareUpload(w, fields, key, path, fs, base);
    req := new Request();
    if err.None? {
      m.SetupRequest(req);
    }
  }
}
