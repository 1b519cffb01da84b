/** The procedures of request.c, writing to and closing descriptors, proved to do
    what the functions of RequestHandling say. */
module RequestProcedures {
  import opened Requests
  import opened LineReader
  import opened HttpText
  import opened RequestHandling
  import opened Descriptors

  /** What request_handle does to the kernel's tables. */
  function Handled(fs: FileSystem, w: World, fd: int, outcome: Outcome): World {
    match outcome
    case Hangs => w
    case Dies => w.(failed := true)
    case Replies(reply) => WriteAll(w, fd, Writes(fs, reply))
  }

  /** The same, with the close that follows it. */
  function HandledAndClosed(fs: FileSystem, w: World, fd: int, outcome: Outcome): World {
    if outcome.Replies? then CloseFd(Handled(fs, w, fd, outcome), fd) else Handled(fs, w, fd, outcome)
  }

  class Process {
    const fs: FileSystem
    var world: World

    constructor (fs: FileSystem)
      ensures this.fs == fs && world == BOOT
    {
      this.fs := fs;
      world := BOOT;
    }

    /** write_or_die. */
    method WriteOrDie(fd: int, s: string)
      modifies this
      ensures world == WriteTo(old(world), fd, s)
    {
      world := WriteTo(world, fd, s);
    }

    /** close_or_die. */
    method CloseOrDie(fd: int)
      modifies this
      ensures world == CloseFd(old(world), fd)
    {
      world := CloseFd(world, fd);
    }

    /** request_error. */
    method RequestError(fd: int, cause: string, errnum: string, shortmsg: string, longmsg: string)
      modifies this
      ensures world == WriteAll(old(world), fd, ErrorWrites(cause, errnum, shortmsg, longmsg))
    {
      ghost var w0 := world;
      var body := ErrorBody(cause, errnum, shortmsg, longmsg);
      WriteOrDie(fd, StatusWrite(errnum, shortmsg));
      WriteOrDie(fd, TYPE_WRITE);
      WriteOrDie(fd, LengthWrite(body));
      WriteOrDie(fd, body);
      WriteAllFour(w0, fd, StatusWrite(errnum, shortmsg), TYPE_WRITE, LengthWrite(body), body);
    }

    /** request_serve_static; ok is false when open or mmap fails. */
    method ServeStatic(fd: int, filename: string, filesize: int) returns (ok: bool)
      modifies this
      ensures ok <==> CanMap(fs, filename, filesize)
      ensures world == Handled(fs, old(world), fd, StaticOutcome(fs, filename, filesize))
    {
      if filename !in fs || filesize <= 0 {
        world := world.(failed := true);
        return false;
      }
      ghost var w0 := world;
      WriteOrDie(fd, StaticHeader(filename, filesize));
      var body := MappedBytes(fs, filename, filesize);
      WriteOrDie(fd, body);
      WriteAllTwo(w0, fd, StaticHeader(filename, filesize), body);
      return true;
    }

    /** request_serve_dynamic, with the child's output. */
    method ServeDynamic(fd: int, filename: string, cgiArgs: string)
      modifies this
      ensures world == WriteAll(old(world), fd, Writes(fs, DynamicReply(filename, cgiArgs)))
    {
      ghost var w0 := world;
      WriteOrDie(fd, OK_WRITE);
      WriteOrDie(fd, ProgramOutput(fs, filename, cgiArgs));
      WriteAllTwo(w0, fd, OK_WRITE, ProgramOutput(fs, filename, cgiArgs));
    }

    /** The first line and its words, as far as sscanf finds any. */
    method ReadRequestLine(stream: ByteStream, line: array<char>, junkMethod: string, junkUri: string,
                           ghost c: Conn)
      returns (requestMethod: string, uri: string)
      requires stream.Valid() && line.Length == MAXBUF
      requires c.input == stream.Rest() && c.junk.line == line[..]
      requires c.junk.method_ == junkMethod && c.junk.uri == junkUri
      modifies stream, line
      ensures stream.Valid() && stream.Rest() == c.input[ChunkLen(c.input, ROOM)..]
      ensures requestMethod == Method(c) && uri == Uri(c)
    {
      var n := Readline(stream, line, MAXBUF);
      var words := Words(CString(line[..]));
      requestMethod := if |words| > 0 then words[0] else junkMethod;
      uri := if |words| > 1 then words[1] else junkUri;
    }

    /** The request line and, for a GET, the header section; drained is false when
        the header loop never returns. */
    method ReadRequest(stream: ByteStream, line: array<char>, headers: array<char>, junkMethod: string,
                       junkUri: string, ghost c: Conn)
      returns (requestMethod: string, uri: string, drained: bool)
      requires stream.Valid() && line.Length == headers.Length == MAXBUF && line != headers
      requires c.input == stream.Rest()
      requires c.junk == Junk(line[..], headers[..], junkMethod, junkUri)
      modifies stream, line, headers
      ensures requestMethod == Method(c) && uri == Uri(c)
      ensures EqualIgnoringCase(requestMethod, "GET") ==> (drained <==> AfterHeaders(c).Some?)
    {
      requestMethod, uri := ReadRequestLine(stream, line, junkMethod, junkUri, c);
      drained := true;
      if EqualIgnoringCase(requestMethod, "GET") {
        drained := ReadHeaders(stream, headers);
      }
    }

    /** request_error with the words of one of the refusals. */
    method Refuse(fd: int, cause: string, why: Refusal)
      modifies this
      ensures world == WriteAll(old(world), fd, Writes(fs, Refused(cause, why)))
    {
      RequestError(fd, cause, why.Errnum(), why.ShortMsg(), why.LongMsg());
    }

    /** request_handle; returned is false when the call never returns or the
        process dies in it. */
    method RequestHandle(fd: int, stream: ByteStream, line: array<char>, headers: array<char>,
                         junkMethod: string, junkUri: string, ghost c: Conn)
      returns (returned: bool)
      requires stream.Valid() && line.Length == headers.Length == MAXBUF && line != headers
      requires c.input == stream.Rest()
      requires c.junk == Junk(line[..], headers[..], junkMethod, junkUri)
      modifies this, stream, line, headers
      ensures returned <==> HandleOutcome(fs, c).Replies?
      ensures world == Handled(fs, old(world), fd, HandleOutcome(fs, c))
    {
      var requestMethod, uri, drained := ReadRequest(stream, line, headers, junkMethod, junkUri, c);
      if !EqualIgnoringCase(requestMethod, "GET") {
        Refuse(fd, requestMethod, NotImplemented);
        return true;
      }
      if !drained {
        return false;
      }
      returned := AnswerTarget(fd, Resolve(uri));
    }

    /** request_handle from its stat on. */
    method AnswerTarget(fd: int, t: Target) returns (returned: bool)
      modifies this
      ensures returned <==> Answer(fs, t).Replies?
      ensures world == Handled(fs, old(world), fd, Answer(fs, t))
    {
      if t.filename !in fs {
        Refuse(fd, t.filename, NotFound);
        return true;
      }
      var f := fs[t.filename];
      if t.isStatic {
        if !f.regular || !f.ownerReads {
          Refuse(fd, t.filename, CannotRead);
          return true;
        }
        returned := ServeStatic(fd, t.filename, CastToInt(|f.content|));
      } else {
        if !f.regular || !f.ownerRuns {
          Refuse(fd, t.filename, CannotRun);
          return true;
        }
        ServeDynamic(fd, t.filename, t.cgiArgs);
        return true;
      }
    }

    /** One turn of the sequential server's loop, after accept. */
    method HandleAndClose(fd: int, stream: ByteStream, line: array<char>, headers: array<char>,
                          junkMethod: string, junkUri: string, ghost c: Conn)
      returns (returned: bool)
      requires stream.Valid() && line.Length == headers.Length == MAXBUF && line != headers
      requires c.input == stream.Rest()
      requires c.junk == Junk(line[..], headers[..], junkMethod, junkUri)
      modifies this, stream, line, headers
      ensures returned <==> HandleOutcome(fs, c).Replies?
      ensures world == HandledAndClosed(fs, old(world), fd, HandleOutcome(fs, c))
    {
      returned := RequestHandle(fd, stream, line, headers, junkMethod, junkUri, c);
      if returned {
        CloseOrDie(fd);
      }
    }

    /** request_parse. */
    method RequestParse(fd: int, stream: ByteStream, line: array<char>, headers: array<char>,
                        junkMethod: string, junkUri: string, ghost c: Conn)
      returns (p: Parsed)
      requires stream.Valid() && line.Length == headers.Length == MAXBUF && line != headers
      requires c.input == stream.Rest()
      requires c.junk == Junk(line[..], headers[..], junkMethod, junkUri)
      modifies this, stream, line, headers
      ensures p == ParseOutcome(fs, c, fd)
      ensures p.Rejected? ==>
                world == CloseFd(WriteAll(old(world), fd, Writes(fs, Refused(p.cause, p.why))), fd)
      ensures !p.Rejected? ==> world == old(world)
    {
      var requestMethod, uri, drained := ReadRequest(stream, line, headers, junkMethod, junkUri, c);
      if !EqualIgnoringCase(requestMethod, "GET") {
        p := RefuseAndClose(fd, requestMethod, NotImplemented);
        return;
      }
      if !drained {
        return Stuck;
      }
      p := LookUpTarget(fd, Resolve(uri));
    }

    /** request_parse from its stat on. */
    method LookUpTarget(fd: int, t: Target) returns (p: Parsed)
      modifies this
      ensures p == LookUp(fs, t, fd)
      ensures p.Rejected? ==>
                world == CloseFd(WriteAll(old(world), fd, Writes(fs, Refused(p.cause, p.why))), fd)
      ensures !p.Rejected? ==> world == old(world)
    {
      if t.filename !in fs {
        p := RefuseAndClose(fd, t.filename, NotFound);
        return;
      }
      var f := fs[t.filename];
      if t.isStatic {
        if !f.regular || !f.ownerReads {
          p := RefuseAndClose(fd, t.filename, CannotRead);
          return;
        }
      } else {
        if !f.regular || !f.ownerRuns {
          p := RefuseAndClose(fd, t.filename, CannotRun);
          return;
        }
      }
      return Ready(Request(fd, CopyName(t.filename), CopyName(t.cgiArgs), t.isStatic, CastToInt(|f.content|)));
    }

    /** The error exits of request_parse: the response, then the close. */
    method RefuseAndClose(fd: int, cause: string, why: Refusal) returns (p: Parsed)
      modifies this
      ensures p == Rejected(cause, why)
      ensures world == CloseFd(WriteAll(old(world), fd, Writes(fs, Refused(cause, why))), fd)
    {
      Refuse(fd, cause, why);
      CloseOrDie(fd);
      return Rejected(cause, why);
    }

    /** request_serve; ok is false when the process dies in it. */
    method RequestServe(req: Request) returns (ok: bool)
      modifies this
      ensures ok <==> ServeOutcome(fs, req).Replies?
      ensures world == HandledAndClosed(fs, old(world), req.connFd, ServeOutcome(fs, req))
    {
      ok := true;
      if req.isStatic {
        ok := ServeStatic(req.connFd, req.filename, req.filesize);
        if !ok {
          return;
        }
      } else {
        ServeDynamic(req.connFd, req.filename, req.cgiArgs);
      }
      CloseOrDie(req.connFd);
    }

    /** request_parse and then request_serve leave the world exactly as one turn
        of the sequential server's loop would. */
    method ParseThenServe(fd: int, stream: ByteStream, line: array<char>, headers: array<char>,
                          junkMethod: string, junkUri: string, ghost c: Conn)
      returns (returned: bool)
      requires stream.Valid() && line.Length == headers.Length == MAXBUF && line != headers
      requires c.input == stream.Rest()
      requires c.junk == Junk(line[..], headers[..], junkMethod, junkUri)
      requires FitsArrays(fs, c)
      modifies this, stream, line, headers
      ensures returned <==> HandleOutcome(fs, c).Replies?
      ensures world == HandledAndClosed(fs, old(world), fd, HandleOutcome(fs, c))
    {
      ghost var o := HandleOutcome(fs, c);
      ghost var decided := ParseOutcome(fs, c, fd);
      HalvesMakeTheWhole(fs, c, fd, decided, o);
      var p := RequestParse(fd, stream, line, headers, junkMethod, junkUri, c);
      returned := p.Rejected?;
      if p.Ready? {
        returned := RequestServe(p.req);
      }
    }
  }

  lemma HalvesMakeTheWhole(fs: FileSystem, c: Conn, fd: int, p: Parsed, o: Outcome)
    requires FitsArrays(fs, c) && p == ParseOutcome(fs, c, fd) && o == HandleOutcome(fs, c)
    ensures p.Stuck? ==> o == Hangs
    ensures p.Rejected? ==> o == Replies(Refused(p.cause, p.why))
    ensures p.Ready? ==> o == ServeOutcome(fs, p.req) && p.req.connFd == fd
  {
    PipelineIsSequential(fs, c, fd);
  }

  lemma WriteAllTwo(w: World, fd: int, a: string, b: string)
    ensures WriteAll(w, fd, [a, b]) == WriteTo(WriteTo(w, fd, a), fd, b)
  {
    var w' := WriteTo(w, fd, a);
    assert [a, b][1..] == [b] && [b][1..] == [];
    assert WriteAll(w', fd, [b]) == WriteAll(WriteTo(w', fd, b), fd, []);
  }

  lemma WriteAllFour(w: World, fd: int, a: string, b: string, c: string, d: string)
    ensures WriteAll(w, fd, [a, b, c, d]) == WriteTo(WriteTo(WriteTo(WriteTo(w, fd, a), fd, b), fd, c), fd, d)
  {
    assert [a, b, c, d] == [a, b] + [c, d];
    WriteAllConcat(w, fd, [a, b], [c, d]);
    WriteAllTwo(w, fd, a, b);
    WriteAllTwo(WriteTo(WriteTo(w, fd, a), fd, b), fd, c, d);
  }

  // ---- What is left when a call has returned ----

  /** Everything that does not belong to descriptor fd is as it was. */
  ghost predicate OthersAsBefore(w: World, w': World, fd: int)
    requires fd in w.open
  {
    && w'.conns == w.conns && |w'.output| == |w.output| && |w'.closes| == |w.closes|
    && (forall g :: g != fd ==> (g in w'.open <==> g in w.open))
    && (forall g :: g != fd && g in w.open && g in w'.open ==> w'.open[g] == w.open[g])
    && (forall m :: 0 <= m < |w.output| && m != w.open[fd] ==> w'.output[m] == w.output[m])
    && (forall m :: 0 <= m < |w.closes| && m != w.open[fd] ==> w'.closes[m] == w.closes[m])
  }

  /** The connection has the bytes, and is still open. */
  ghost predicate Answered(w: World, w': World, fd: int, bytes: string)
    requires Shaped(w) && fd in w.open
  {
    && OthersAsBefore(w, w', fd) && w'.failed == w.failed
    && w'.open == w.open && w'.closes == w.closes
    && w'.output[w.open[fd]] == w.output[w.open[fd]] + bytes
  }

  /** The connection has the bytes and one close more, and the number is free. */
  ghost predicate AnsweredAndClosed(w: World, w': World, fd: int, bytes: string)
    requires Shaped(w) && fd in w.open
  {
    && OthersAsBefore(w, w', fd) && w'.failed == w.failed
    && fd !in w'.open && w'.closes[w.open[fd]] == w.closes[w.open[fd]] + 1
    && w'.output[w.open[fd]] == w.output[w.open[fd]] + bytes
  }

  lemma AppendLeaves(w: World, fd: int, bytes: string)
    requires Shaped(w) && fd in w.open
    ensures Answered(w, WriteTo(w, fd, bytes), fd, bytes)
    ensures AnsweredAndClosed(w, CloseFd(WriteTo(w, fd, bytes), fd), fd, bytes)
  {
  }

  /** When request_handle has returned, the connection is open with the whole response
      on it. When a turn of the sequential loop or request_serve has returned, it
      has been closed besides. A failed check ends the process, and a call that
      never returns changes nothing. */
  lemma TurnLeaves(fs: FileSystem, w: World, fd: int, o: Outcome)
    requires Shaped(w) && fd in w.open
    ensures o.Replies? ==> Answered(w, Handled(fs, w, fd, o), fd, Join(Writes(fs, o.reply)))
    ensures o.Replies? ==> AnsweredAndClosed(w, HandledAndClosed(fs, w, fd, o), fd, Join(Writes(fs, o.reply)))
    ensures o == Dies ==> Handled(fs, w, fd, o) == HandledAndClosed(fs, w, fd, o) == w.(failed := true)
    ensures o == Hangs ==> Handled(fs, w, fd, o) == HandledAndClosed(fs, w, fd, o) == w
  {
    if o.Replies? {
      WriteAllAppends(w, fd, Writes(fs, o.reply));
      AppendLeaves(w, fd, Join(Writes(fs, o.reply)));
    }
  }

  /** So a turn of the sequential loop that comes back leaves exactly SequentialBytes
      and a close. */
  lemma SequentialTurnLeaves(fs: FileSystem, w: World, fd: int, c: Conn, bytes: string)
    requires Shaped(w) && fd in w.open && SequentialBytes(fs, c) == Some(bytes)
    ensures AnsweredAndClosed(w, HandledAndClosed(fs, w, fd, HandleOutcome(fs, c)), fd, bytes)
  {
    TurnLeaves(fs, w, fd, HandleOutcome(fs, c));
  }

  /** Writing to or closing a number that is not open is a failed check. */
  lemma StaleNumbersFail(w: World, fd: int, bytes: string)
    requires fd !in w.open
    ensures WriteTo(w, fd, bytes) == CloseFd(w, fd) == w.(failed := true)
  {
  }
}
