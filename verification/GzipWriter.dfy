/** The buffering, compressing response writer (internal/server/gzip.go). */
module GzipWriter {
  import opened Catalog

  type Bytes = seq<bv8>

  const GZIP_MIN_SIZE := 1024
  const STATUS_OK := 200
  const STATUS_NO_CONTENT := 204
  const STATUS_NOT_MODIFIED := 304

  /** Content-Length as strconv.Atoi reads it. */
  datatype Length = Absent | Unreadable | Length(n: int)

  datatype Headers = Headers(contentEncoding: string, contentLength: Length, varyOnEncoding: bool)

  /** What reaches the underlying ResponseWriter, in order. */
  datatype Wire = Head(status: nat, headers: Headers) | Body(bytes: Bytes)

  /** A gzip stream (RFC 1952) as a black box: what it emits for one more chunk
      after some chunks, what it emits on close, and how a client decodes it. */
  datatype Codec = Codec(
    emit: (seq<Bytes>, Bytes) -> Bytes,
    trailer: seq<Bytes> -> Bytes,
    decode: Bytes -> Bytes)

  function Flatten(chunks: seq<Bytes>): Bytes {
    if chunks == [] then [] else Flatten(chunks[..|chunks| - 1]) + chunks[|chunks| - 1]
  }

  function Emitted(c: Codec, chunks: seq<Bytes>): Bytes {
    if chunks == [] then []
    else
      var before, last := chunks[..|chunks| - 1], chunks[|chunks| - 1];
      Emitted(c, before) + c.emit(before, last)
  }

  ghost predicate Lossless(c: Codec) {
    forall chunks :: c.decode(Emitted(c, chunks) + c.trailer(chunks)) == Flatten(chunks)
  }

  /** `fed` are the chunks given to the gzip stream once there is one. */
  datatype Writer = Writer(
    status: nat,
    wroteHeader: bool,
    buf: Bytes,
    passThrough: bool,
    fed: Option<seq<Bytes>>,
    headers: Headers,
    log: seq<Wire>)

  function NewWriter(headers: Headers): Writer {
    Writer(0, false, [], false, None, headers, [])
  }

  // ---------------------------------------------------------------- one call

  predicate Bodyless(status: nat) {
    status == STATUS_NO_CONTENT || status == STATUS_NOT_MODIFIED || 100 <= status < 200
  }

  /** The handler declared a length too small to be worth compressing. */
  predicate DeclaredSmall(h: Headers) {
    h.contentLength.Length? && h.contentLength.n < GZIP_MIN_SIZE
  }

  function WriteHeader(w: Writer, status: nat): Writer {
    w.(status := status)
  }

  function WriteHeaderNow(w: Writer): Writer {
    if w.wroteHeader then w
    else w.(wroteHeader := true,
            log := w.log + [Head(if w.status == 0 then STATUS_OK else w.status, w.headers)])
  }

  function Send(w: Writer, bytes: Bytes): Writer {
    w.(log := w.log + [Body(bytes)])
  }

  /** Give up on compression: header, what was buffered, then this chunk. */
  function BailOut(w: Writer, p: Bytes): Writer {
    var w := WriteHeaderNow(w.(passThrough := true));
    var w := if |w.buf| > 0 then Send(w, w.buf).(buf := []) else w;
    Send(w, p)
  }

  function Feed(c: Codec, w: Writer, p: Bytes): Writer
    requires w.fed.Some?
  {
    Send(w, c.emit(w.fed.value, p)).(fed := Some(w.fed.value + [p]))
  }

  function StartGzip(w: Writer): Writer {
    WriteHeaderNow(w.(headers := Headers("gzip", Absent, true))).(fed := Some([]))
  }

  function Write(c: Codec, w: Writer, p: Bytes): Writer {
    var w := if !w.passThrough && w.fed.None? && Bodyless(w.status) then w.(passThrough := true) else w;
    if w.passThrough then Send(WriteHeaderNow(w), p)
    else if w.fed.Some? then Feed(c, w, p)
    else if w.headers.contentEncoding != "" then BailOut(w, p)
    else if DeclaredSmall(w.headers) then BailOut(w, p)
    else
      var w := w.(buf := w.buf + p);
      if |w.buf| < GZIP_MIN_SIZE then w
      else Feed(c, StartGzip(w), w.buf).(buf := [])
  }

  function Close(c: Codec, w: Writer): Writer {
    if w.fed.Some? then
      Send(w, c.trailer(w.fed.value)).(fed := None)
    else
      var w := WriteHeaderNow(w.(passThrough := true));
      if |w.buf| > 0 then Send(w, w.buf).(buf := []) else w
  }

  // ---------------------------------------------------------------- a whole response

  function WriteAll(c: Codec, w: Writer, chunks: seq<Bytes>): Writer {
    if chunks == [] then w
    else Write(c, WriteAll(c, w, chunks[..|chunks| - 1]), chunks[|chunks| - 1])
  }

  /** A handler that sets its headers, at most one status, writes and returns. */
  function Respond(c: Codec, headers: Headers, status: Option<nat>, chunks: seq<Bytes>): seq<Wire> {
    var w := NewWriter(headers);
    var w := if status.Some? then WriteHeader(w, status.value) else w;
    Close(c, WriteAll(c, w, chunks)).log
  }

  function BodyOf(log: seq<Wire>): Bytes {
    if log == [] then []
    else BodyOf(log[..|log| - 1]) + (if log[|log| - 1].Body? then log[|log| - 1].bytes else [])
  }

  lemma BodyAppend(log: seq<Wire>, x: Wire)
    ensures BodyOf(log + [x]) == BodyOf(log) + (if x.Body? then x.bytes else [])
  {
    assert (log + [x])[..|log|] == log;
  }

  lemma EmittedAppend(c: Codec, chunks: seq<Bytes>, p: Bytes)
    ensures Emitted(c, chunks + [p]) == Emitted(c, chunks) + c.emit(chunks, p)
    ensures Flatten(chunks + [p]) == Flatten(chunks) + p
  {
    assert (chunks + [p])[..|chunks|] == chunks;
  }

  /** One header, before everything else. */
  ghost predicate HeadFirst(log: seq<Wire>, status: nat, headers: Headers) {
    && |log| > 0 && log[0] == Head(if status == 0 then STATUS_OK else status, headers)
    && forall i :: 0 < i < |log| ==> log[i].Body?
  }

  predicate NeverCompress(status: nat, headers: Headers) {
    Bodyless(status) || headers.contentEncoding != "" || DeclaredSmall(headers)
  }

  /** The writer after the chunks of `written`: still buffering, passing through,
      or compressing. */
  ghost predicate Buffering(w: Writer, headers: Headers, written: seq<Bytes>) {
    && !w.passThrough && w.fed.None? && !w.wroteHeader && w.log == [] && w.headers == headers
    && w.buf == Flatten(written) && |w.buf| < GZIP_MIN_SIZE
    && (written != [] ==> !NeverCompress(w.status, headers))
  }

  ghost predicate Passing(w: Writer, headers: Headers, written: seq<Bytes>) {
    && w.passThrough && w.fed.None? && w.wroteHeader && w.buf == []
    && NeverCompress(w.status, headers)
    && HeadFirst(w.log, w.status, headers) && BodyOf(w.log) == Flatten(written)
  }

  ghost predicate Compressing(c: Codec, w: Writer, headers: Headers, written: seq<Bytes>) {
    && !w.passThrough && w.fed.Some? && w.wroteHeader && w.buf == []
    && !NeverCompress(w.status, headers) && |Flatten(written)| >= GZIP_MIN_SIZE
    && HeadFirst(w.log, w.status, Headers("gzip", Absent, true))
    && Flatten(w.fed.value) == Flatten(written)
    && BodyOf(w.log) == Emitted(c, w.fed.value)
  }

  ghost predicate Sound(c: Codec, w: Writer, status: nat, headers: Headers, written: seq<Bytes>) {
    w.status == status &&
    (Buffering(w, headers, written) || Passing(w, headers, written) || Compressing(c, w, headers, written))
  }

  lemma WriteKeepsSound(c: Codec, w: Writer, status: nat, headers: Headers, written: seq<Bytes>, p: Bytes)
    requires Sound(c, w, status, headers, written)
    ensures Sound(c, Write(c, w, p), status, headers, written + [p])
  {
    EmittedAppend(c, written, p);
    if Passing(w, headers, written) {
      BodyAppend(w.log, Body(p));
    } else if Compressing(c, w, headers, written) {
      EmittedAppend(c, w.fed.value, p);
      BodyAppend(w.log, Body(c.emit(w.fed.value, p)));
    } else {
      FirstDecision(c, w, headers, written, p);
    }
  }

  lemma FirstDecision(c: Codec, w: Writer, headers: Headers, written: seq<Bytes>, p: Bytes)
    requires Buffering(w, headers, written)
    ensures Sound(c, Write(c, w, p), w.status, headers, written + [p])
  {
    if NeverCompress(w.status, headers) {
      PassesThrough(c, w, headers, p);
      assert [] + [p] == [p];
    } else if |w.buf + p| < GZIP_MIN_SIZE {
      EmittedAppend(c, written, p);
    } else {
      StartsCompressing(c, w, headers, written, p);
    }
  }

  lemma PassesThrough(c: Codec, w: Writer, headers: Headers, p: Bytes)
    requires Buffering(w, headers, []) && NeverCompress(w.status, headers)
    ensures Passing(Write(c, w, p), headers, [p]) && Write(c, w, p).status == w.status
  {
    var head := Head(if w.status == 0 then STATUS_OK else w.status, headers);
    BypassLog(c, w, p);
    HeadAndBody(c, head, p);
  }

  lemma HeadAndBody(c: Codec, head: Wire, p: Bytes)
    requires head.Head?
    ensures BodyOf([head] + [Body(p)]) == p && Flatten([p]) == p
  {
    BodyAppend([], head);
    BodyAppend([head], Body(p));
    EmittedAppend(c, [], p);
    assert [] + [p] == [p];
  }

  /** The first chunk of a response that is never compressed. */
  lemma BypassLog(c: Codec, w: Writer, p: Bytes)
    requires !w.passThrough && w.fed.None? && !w.wroteHeader && w.log == [] && w.buf == []
    requires NeverCompress(w.status, w.headers)
    ensures var head := Head(if w.status == 0 then STATUS_OK else w.status, w.headers);
            Write(c, w, p) == w.(passThrough := true, wroteHeader := true, log := [head] + [Body(p)])
  {
    assert w.log + [Head(if w.status == 0 then STATUS_OK else w.status, w.headers)]
        == [Head(if w.status == 0 then STATUS_OK else w.status, w.headers)];
  }

  lemma StartsCompressing(c: Codec, w: Writer, headers: Headers, written: seq<Bytes>, p: Bytes)
    requires Buffering(w, headers, written) && !NeverCompress(w.status, headers) && |w.buf + p| >= GZIP_MIN_SIZE
    ensures Compressing(c, Write(c, w, p), headers, written + [p]) && Write(c, w, p).status == w.status
  {
    var head := Head(if w.status == 0 then STATUS_OK else w.status, Headers("gzip", Absent, true));
    var w' := Write(c, w, p);
    EmittedAppend(c, written, p);
    FirstEmission(c, head, w.buf + p);
    assert w'.log == [head] + [Body(c.emit([], w.buf + p))] && w'.fed == Some([] + [w.buf + p]);
  }

  lemma FirstEmission(c: Codec, head: Wire, all: Bytes)
    requires head.Head?
    ensures BodyOf([head] + [Body(c.emit([], all))]) == Emitted(c, [] + [all])
    ensures Flatten([] + [all]) == all
  {
    EmittedAppend(c, [], all);
    BodyAppend([], head);
    BodyAppend([head], Body(c.emit([], all)));
  }

  lemma {:induction false} WriteAllSound(c: Codec, w: Writer, status: nat, headers: Headers, chunks: seq<Bytes>)
    requires w == NewWriter(headers).(status := status)
    ensures Sound(c, WriteAll(c, w, chunks), status, headers, chunks)
  {
    if chunks != [] {
      var n := |chunks| - 1;
      WriteAllSound(c, w, status, headers, chunks[..n]);
      WriteKeepsSound(c, WriteAll(c, w, chunks[..n]), status, headers, chunks[..n], chunks[n]);
      assert chunks[..n] + [chunks[n]] == chunks;
    }
  }

  predicate Compresses(headers: Headers, status: nat, total: nat) {
    !NeverCompress(status, headers) && total >= GZIP_MIN_SIZE
  }

  /** For every codec, header set, status and chunking: the header goes out once,
      before any body byte, with the handler's status or 200; the client decodes
      exactly what the handler wrote; and compression is decided by the declared
      headers, the status and the total size alone. */
  lemma ResponseIsDelivered(c: Codec, headers: Headers, status: Option<nat>, chunks: seq<Bytes>)
    requires Lossless(c)
    ensures var log := Respond(c, headers, status, chunks);
            var s := if status.Some? then status.value else 0;
            var total := Flatten(chunks);
            if Compresses(headers, s, |total|) then
              HeadFirst(log, s, Headers("gzip", Absent, true)) && c.decode(BodyOf(log)) == total
            else
              HeadFirst(log, s, headers) && BodyOf(log) == total
  {
    var s := if status.Some? then status.value else 0;
    var start := NewWriter(headers).(status := s);
    WriteAllSound(c, start, s, headers, chunks);
    ClosingDelivers(c, WriteAll(c, start, chunks), s, headers, chunks);
  }

  lemma ClosingDelivers(c: Codec, w: Writer, s: nat, headers: Headers, chunks: seq<Bytes>)
    requires Lossless(c) && Sound(c, w, s, headers, chunks)
    ensures var log := Close(c, w).log;
            if Compresses(headers, s, |Flatten(chunks)|) then
              HeadFirst(log, s, Headers("gzip", Absent, true)) && c.decode(BodyOf(log)) == Flatten(chunks)
            else
              HeadFirst(log, s, headers) && BodyOf(log) == Flatten(chunks)
  {
    if Compressing(c, w, headers, chunks) {
      BodyAppend(w.log, Body(c.trailer(w.fed.value)));
    } else if Buffering(w, headers, chunks) {
      SmallBodyDelivered(c, w, headers);
    }
  }

  lemma SmallBodyDelivered(c: Codec, w: Writer, headers: Headers)
    requires w.fed.None? && !w.wroteHeader && w.log == [] && w.headers == headers
    ensures HeadFirst(Close(c, w).log, w.status, headers) && BodyOf(Close(c, w).log) == w.buf
  {
    var head := Head(if w.status == 0 then STATUS_OK else w.status, headers);
    BodyAppend([], head);
    BodyAppend([head], Body(w.buf));
    ClosingLog(c, w, head);
  }

  lemma ClosingLog(c: Codec, w: Writer, head: Wire)
    requires w.fed.None? && !w.wroteHeader && w.log == []
    requires head == Head(if w.status == 0 then STATUS_OK else w.status, w.headers)
    ensures Close(c, w).log == if |w.buf| > 0 then [head] + [Body(w.buf)] else [] + [head]
  {
  }

  /** When the response goes out as gzip, in plain terms: it has a status that allows
      a body, or none; no encoding of its own; no readable declared length below 1024;
      and at least 1024 bytes. */
  lemma GzipExactlyWhen(c: Codec, headers: Headers, status: Option<nat>, chunks: seq<Bytes>)
    requires Lossless(c)
    ensures var wire := Respond(c, headers, status, chunks);
            var code := if status.None? || status.value == 0 then 200 else status.value;
            && |wire| > 0 && (forall i :: 0 < i < |wire| ==> wire[i].Body?)
            && if (status.None? || (status.value != 204 && status.value != 304 && !(100 <= status.value < 200)))
                  && headers.contentEncoding == ""
                  && !(headers.contentLength.Length? && headers.contentLength.n < 1024)
                  && |Flatten(chunks)| >= 1024
               then wire[0] == Head(code, Headers("gzip", Absent, true)) && c.decode(BodyOf(wire)) == Flatten(chunks)
               else wire[0] == Head(code, headers) && BodyOf(wire) == Flatten(chunks)
  {
    ResponseIsDelivered(c, headers, status, chunks);
  }

  /** Hence two handlers that write the same bytes in different pieces get the
      same header and the same decoded body. */
  lemma ChunkingDoesNotMatter(c: Codec, headers: Headers, status: Option<nat>, a: seq<Bytes>, b: seq<Bytes>)
    requires Lossless(c) && Flatten(a) == Flatten(b)
    ensures var x, y := Respond(c, headers, status, a), Respond(c, headers, status, b);
            && |x| > 0 && |y| > 0 && x[0] == y[0]
            && (if Compresses(headers, if status.Some? then status.value else 0, |Flatten(a)|)
                then c.decode(BodyOf(x)) == c.decode(BodyOf(y))
                else BodyOf(x) == BodyOf(y))
  {
    ResponseIsDelivered(c, headers, status, a);
    ResponseIsDelivered(c, headers, status, b);
  }

  /** The assumption on codecs can be met. */
  lemma StoredStreamIsLossless()
    ensures Lossless(Codec((before: seq<Bytes>, p: Bytes) => p, (chunks: seq<Bytes>) => [], (bytes: Bytes) => bytes))
  {
    var c := Codec((before: seq<Bytes>, p: Bytes) => p, (chunks: seq<Bytes>) => [], (bytes: Bytes) => bytes);
    forall chunks ensures c.decode(Emitted(c, chunks) + c.trailer(chunks)) == Flatten(chunks) {
      StoredEmits(c, chunks);
      assert Emitted(c, chunks) + [] == Emitted(c, chunks);
    }
  }

  lemma {:induction false} StoredEmits(c: Codec, chunks: seq<Bytes>)
    requires forall before, p :: c.emit(before, p) == p
    ensures Emitted(c, chunks) == Flatten(chunks)
  {
    if chunks != [] {
      StoredEmits(c, chunks[..|chunks| - 1]);
    }
  }

  // ---------------------------------------------------------------- the code

  class GzipResponseWriter {
    const codec: Codec
    var status: nat
    var wroteHeader: bool
    var buf: Bytes
    var passThrough: bool
    var gz: Option<seq<Bytes>>
    var headers: Headers
    var wire: seq<Wire>

    function State(): Writer
      reads this
    {
      Writer(status, wroteHeader, buf, passThrough, gz, headers, wire)
    }

    constructor (codec: Codec, headers: Headers)
      ensures State() == NewWriter(headers) && this.codec == codec
    {
      this.codec, this.headers := codec, headers;
      status, wroteHeader, buf, passThrough, gz, wire := 0, false, [], false, None, [];
    }

    method SetStatus(status: nat)
      modifies this
      ensures State() == WriteHeader(old(State()), status)
    {
      this.status := status;
    }

    method CommitHeader()
      modifies this
      ensures State() == WriteHeaderNow(old(State()))
    {
      if wroteHeader {
        return;
      }
      wroteHeader := true;
      var code := status;
      if code == 0 {
        code := STATUS_OK;
      }
      wire := wire + [Head(code, headers)];
    }

    method PassOn(p: Bytes)
      modifies this
      ensures State() == BailOut(old(State()), p)
    {
      passThrough := true;
      CommitHeader();
      if |buf| > 0 {
        wire := wire + [Body(buf)];
        buf := [];
      }
      wire := wire + [Body(p)];
    }

    method BeginGzip()
      modifies this
      ensures State() == StartGzip(old(State()))
    {
      headers := Headers("gzip", Absent, true);
      CommitHeader();
      gz := Some([]);
    }

    method WriteChunk(p: Bytes)
      modifies this
      ensures State() == Write(codec, old(State()), p)
    {
      if !passThrough && gz.None? && Bodyless(status) {
        passThrough := true;
      }
      if passThrough {
        if !wroteHeader {
          CommitHeader();
        }
        wire := wire + [Body(p)];
        return;
      }
      if gz.Some? {
        wire := wire + [Body(codec.emit(gz.value, p))];
        gz := Some(gz.value + [p]);
        return;
      }
      if headers.contentEncoding != "" {
        PassOn(p);
        return;
      }
      if DeclaredSmall(headers) {
        PassOn(p);
        return;
      }
      buf := buf + p;
      if |buf| < GZIP_MIN_SIZE {
        return;
      }
      BeginGzip();
      wire := wire + [Body(codec.emit(gz.value, buf))];
      gz := Some(gz.value + [buf]);
      buf := [];
    }

    method Finish()
      modifies this
      ensures State() == Close(codec, old(State()))
    {
      if gz.Some? {
        wire := wire + [Body(codec.trailer(gz.value))];
        gz := None;
        return;
      }
      passThrough := true;
      if !wroteHeader {
        CommitHeader();
      }
      if |buf| > 0 {
        wire := wire + [Body(buf)];
        buf := [];
      }
    }
  }

  /** The middleware around a handler that writes `chunks`. */
  method ServeGzipped(codec: Codec, headers: Headers, status: Option<nat>, chunks: seq<Bytes>) returns (wire: seq<Wire>)
    ensures wire == Respond(codec, headers, status, chunks)
    ensures Lossless(codec) ==>
              var code := if status.None? || status.value == 0 then 200 else status.value;
              && |wire| > 0 && (forall i :: 0 < i < |wire| ==> wire[i].Body?)
              && if (status.None? || (status.value != 204 && status.value != 304 && !(100 <= status.value < 200)))
                    && headers.contentEncoding == ""
                    && !(headers.contentLength.Length? && headers.contentLength.n < 1024)
                    && |Flatten(chunks)| >= 1024
                 then wire[0] == Head(code, Headers("gzip", Absent, true))
                      && codec.decode(BodyOf(wire)) == Flatten(chunks)
                 else wire[0] == Head(code, headers) && BodyOf(wire) == Flatten(chunks)
  {
    var gw := new GzipResponseWriter(codec, headers);
    if status.Some? {
      gw.SetStatus(status.value);
    }
    ghost var start := gw.State();
    for i := 0 to |chunks|
      invariant gw.State() == WriteAll(codec, start, chunks[..i])
    {
      assert chunks[..i + 1][..i] == chunks[..i];
      gw.WriteChunk(chunks[i]);
    }
    assert chunks[..|chunks|] == chunks;
    gw.Finish();
    wire := gw.wire;
    if Lossless(codec) {
      GzipExactlyWhen(codec, headers, status, chunks);
    }
  }
}
