/** What the server does with one connection: request_handle of the sequential
    server, and request_parse followed by request_serve of the concurrent one.
    First as functions of the bytes the client sends and of a fixed file system,
    then as the procedures that write to and close descriptors. */
module RequestHandling {
  import opened Requests
  import opened LineReader
  import opened HttpText

  // ---- What a connection brings, and the files ----

  /** What the automatic arrays of a parsing call happen to hold beforehand. */
  datatype Junk = Junk(line: string, headers: string, method_: string, uri: string)

  datatype RawConn = RawConn(input: string, junk: Junk)

  type Conn = c: RawConn | |c.junk.line| == MAXBUF && |c.junk.headers| == MAXBUF
    witness RawConn("", Junk(seq(MAXBUF, _ => NUL), seq(MAXBUF, _ => NUL), "", ""))

  /** cgi maps a query string to what the program prints for it. */
  datatype File = File(regular: bool, ownerReads: bool, ownerRuns: bool, content: string, cgi: map<string, string>)

  type FileSystem = map<string, File>

  const INT_RANGE: int := 0x1_0000_0000

  /** The conversion of st_size to a 32-bit int. */
  function CastToInt(n: int): int {
    (n + INT_RANGE / 2) % INT_RANGE - INT_RANGE / 2
  }

  // ---- The request line and the URI ----

  /** The words that sscanf finds in the first line. */
  function RequestWords(c: Conn): seq<string> {
    Words(CString(Filled(c.junk.line, c.input, ROOM)))
  }

  function Method(c: Conn): string {
    var words := RequestWords(c);
    if |words| > 0 then words[0] else c.junk.method_
  }

  function Uri(c: Conn): string {
    var words := RequestWords(c);
    if |words| > 1 then words[1] else c.junk.uri
  }

  /** What the header loop leaves, None when it never returns. */
  function AfterHeaders(c: Conn): Option<string> {
    DrainHeaders(c.input[ChunkLen(c.input, ROOM)..], c.junk.headers)
  }

  /** strstr(s, w) != NULL. */
  predicate HasSubstring(s: string, w: string) {
    |w| <= |s| && (w <= s || (s != "" && HasSubstring(s[1..], w)))
  }

  /** The part of s before the first '?'. */
  function BeforeQuery(s: string): (t: string)
    ensures |t| <= |s| && t == s[..|t|] && '?' !in t
    ensures |t| < |s| ==> s[|t|] == '?'
  {
    if s == "" || s[0] == '?' then "" else [s[0]] + BeforeQuery(s[1..])
  }

  datatype Target = Target(isStatic: bool, filename: string, cgiArgs: string)

  /** request_parse_uri. */
  function Resolve(uri: string): Target {
    if !HasSubstring(uri, "cgi") then
      Target(true, "." + uri + (if uri != "" && uri[|uri| - 1] == '/' then "index.html" else ""), "")
    else
      var path := BeforeQuery(uri);
      Target(false, "." + path, if |path| < |uri| then uri[|path| + 1..] else "")
  }

  /** s has w at position i. */
  predicate At(s: string, i: nat, w: string) {
    i + |w| <= |s| && s[i..i + |w|] == w
  }

  lemma {:induction false} SubstringIff(s: string, w: string)
    ensures HasSubstring(s, w) <==> exists i: nat :: At(s, i, w)
    decreases |s|
  {
    if |w| <= |s| && w <= s {
      assert At(s, 0, w);
    } else if s != "" {
      SubstringIff(s[1..], w);
      if i: nat :| At(s[1..], i, w) {
        AtNext(s, i, w);
      }
      if i: nat :| At(s, i, w) {
        assert i > 0;
        AtNext(s, i - 1, w);
      }
    }
  }

  lemma AtNext(s: string, i: nat, w: string)
    requires s != ""
    ensures At(s, i + 1, w) <==> At(s[1..], i, w)
  {
    if i + 1 + |w| <= |s| {
      assert s[1..][i..i + |w|] == s[i + 1..i + 1 + |w|];
    }
  }

  /** A URI is static unless it holds the letters cgi somewhere. A program's path
      and query string are the two parts of its URI, cut at the first question
      mark; a file's name keeps every question mark, and a directory's names its
      index. */
  lemma ResolveSplitsTheUri(uri: string)
    ensures var t := Resolve(uri);
            && (t.isStatic <==> !exists i: nat :: At(uri, i, "cgi"))
            && (t.isStatic ==> t.cgiArgs == "" && "." + uri <= t.filename)
            && (t.isStatic ==>
                  t.filename[1 + |uri|..] == if uri != "" && uri[|uri| - 1] == '/' then "index.html" else "")
            && (!t.isStatic && '?' !in uri ==> t.filename == "." + uri && t.cgiArgs == "")
            && (!t.isStatic && '?' in uri ==> '?' !in t.filename && t.filename + "?" + t.cgiArgs == "." + uri)
  {
    QuerySplit(uri);
    SubstringIff(uri, "cgi");
  }

  lemma QuerySplit(uri: string)
    ensures var path := BeforeQuery(uri);
            && '?' !in "." + path
            && (|path| < |uri| <==> '?' in uri)
            && (|path| < |uri| ==> ("." + path) + "?" + uri[|path| + 1..] == "." + uri)
  {
    var path := BeforeQuery(uri);
    if |path| < |uri| {
      assert uri[|path|] in uri;
      var whole := ("." + path) + "?" + uri[|path| + 1..];
      assert |whole| == |"." + uri| && whole[0] == '.';
      assert forall k :: 1 <= k < |whole| ==> whole[k] == uri[k - 1];
    }
  }

  /** The names fit the arrays they are copied into. */
  predicate NamesFit(c: Conn) {
    |Resolve(Uri(c)).filename| <= ROOM && |Resolve(Uri(c)).cgiArgs| <= ROOM
  }

  /** The names of a request line of two words or more always fit, except when ten
      more characters do not fit behind the URI of a directory. */
  lemma NamesFitIff(c: Conn)
    requires |RequestWords(c)| >= 2
    ensures var uri := Uri(c);
            NamesFit(c) <==>
            !(|uri| > 0 && uri[|uri| - 1] == '/' && !HasSubstring(uri, "cgi") && |uri| + |"index.html"| >= ROOM)
  {
    TwoWordsTakeRoom(CString(Filled(c.junk.line, c.input, ROOM)));
  }

  // ---- The responses, as the sequence of writes ----

  /** The four refusals, with the status, the phrase and the sentence of each. */
  datatype Refusal = NotImplemented | NotFound | CannotRead | CannotRun {
    function Code(): nat {
      match this
      case NotImplemented => 501
      case NotFound => 404
      case CannotRead => 403
      case CannotRun => 403
    }

    function Errnum(): string {
      match this
      case NotImplemented => "501"
      case NotFound => "404"
      case CannotRead => "403"
      case CannotRun => "403"
    }

    function ShortMsg(): string {
      match this
      case NotImplemented => "Not Implemented"
      case NotFound => "Not found"
      case CannotRead => "Forbidden"
      case CannotRun => "Forbidden"
    }

    function LongMsg(): string {
      match this
      case NotImplemented => "server does not implement this method"
      case NotFound => "server could not find this file"
      case CannotRead => "server could not read this file"
      case CannotRun => "server could not run this CGI program"
    }
  }

  function ErrorBody(cause: string, errnum: string, shortmsg: string, longmsg: string): string {
    "<!doctype html>\r\n<head>\r\n  <title>OSTEP WebServer Error</title>\r\n</head>\r\n<body>\r\n  <h2>"
    + errnum + ": " + shortmsg + "</h2>\r\n  <p>" + longmsg + ": " + cause + "</p>\r\n</body>\r\n</html>\r\n"
  }

  function ErrorLine(errnum: string, shortmsg: string): string {
    "HTTP/1.0 " + errnum + " " + shortmsg
  }

  const TYPE_LINE: string := "Content-Type: text/html"

  function LengthLine(n: int): string {
    "Content-Length: " + DecimalOfInt(n)
  }

  function StatusWrite(errnum: string, shortmsg: string): string {
    ErrorLine(errnum, shortmsg) + CRLF
  }

  const TYPE_WRITE: string := TYPE_LINE + CRLF

  function LengthWrite(body: string): string {
    LengthLine(|body|) + CRLF + CRLF
  }

  /** The writes of request_error. */
  function ErrorWrites(cause: string, errnum: string, shortmsg: string, longmsg: string): seq<string> {
    var body := ErrorBody(cause, errnum, shortmsg, longmsg);
    [StatusWrite(errnum, shortmsg), TYPE_WRITE, LengthWrite(body), body]
  }

  function RefusalWrites(cause: string, why: Refusal): seq<string> {
    ErrorWrites(cause, why.Errnum(), why.ShortMsg(), why.LongMsg())
  }

  /** request_get_filetype. */
  function FileType(filename: string): string {
    if HasSubstring(filename, ".html") then "text/html"
    else if HasSubstring(filename, ".gif") then "image/gif"
    else if HasSubstring(filename, ".jpg") then "image/jpeg"
    else "text/plain"
  }

  const OK_LINE: string := "HTTP/1.0 200 OK"
  const SERVER_LINE: string := "Server: OSTEP WebServer"

  const OK_WRITE: string := OK_LINE + CRLF + SERVER_LINE + CRLF

  function FileTypeLine(filename: string): string {
    "Content-Type: " + FileType(filename)
  }

  function StaticHeader(filename: string, filesize: int): string {
    OK_WRITE + LengthLine(filesize) + CRLF + FileTypeLine(filename) + CRLF + CRLF
  }

  /** open succeeds and mmap gets a positive length. */
  predicate CanMap(fs: FileSystem, filename: string, filesize: int) {
    filename in fs && 0 < filesize
  }

  /** The mapped bytes that request_serve_static writes. */
  function MappedBytes(fs: FileSystem, filename: string, filesize: int): string
    requires CanMap(fs, filename, filesize)
  {
    var content := fs[filename].content;
    content[..if filesize <= |content| then filesize else |content|]
  }

  /** What the child of request_serve_dynamic prints. */
  function ProgramOutput(fs: FileSystem, filename: string, cgiArgs: string): string {
    if filename in fs && cgiArgs in fs[filename].cgi then fs[filename].cgi[cgiArgs] else ""
  }

  /** A complete response. */
  datatype Reply =
    | Refused(cause: string, why: Refusal)
    | StaticReply(filename: string, filesize: int)
    | DynamicReply(filename: string, cgiArgs: string)

  /** Its writes, in order.  A file that cannot be mapped is never written. */
  function Writes(fs: FileSystem, r: Reply): seq<string> {
    match r
    case Refused(cause, why) => RefusalWrites(cause, why)
    case StaticReply(filename, filesize) =>
      [StaticHeader(filename, filesize),
       if CanMap(fs, filename, filesize) then MappedBytes(fs, filename, filesize) else ""]
    case DynamicReply(filename, cgiArgs) => [OK_WRITE, ProgramOutput(fs, filename, cgiArgs)]
  }

  // ---- The sequential server ----

  /** Hangs: the call never returns.  Dies: an _or_die check fails. */
  datatype Outcome = Hangs | Dies | Replies(reply: Reply)

  function StaticOutcome(fs: FileSystem, filename: string, filesize: int): Outcome {
    if CanMap(fs, filename, filesize) then Replies(StaticReply(filename, filesize)) else Dies
  }

  /** request_handle, once it has the words of the request line; drained says that
      its header loop returns. */
  function Handle(fs: FileSystem, requestMethod: string, uri: string, drained: bool): Outcome {
    if !EqualIgnoringCase(requestMethod, "GET") then Replies(Refused(requestMethod, NotImplemented))
    else if !drained then Hangs
    else Answer(fs, Resolve(uri))
  }

  /** request_handle from its stat on. */
  function Answer(fs: FileSystem, t: Target): Outcome {
    if t.filename !in fs then Replies(Refused(t.filename, NotFound))
    else
      var f := fs[t.filename];
      if t.isStatic then
        if !f.regular || !f.ownerReads then Replies(Refused(t.filename, CannotRead))
        else StaticOutcome(fs, t.filename, CastToInt(|f.content|))
      else
        if !f.regular || !f.ownerRuns then Replies(Refused(t.filename, CannotRun))
        else Replies(DynamicReply(t.filename, t.cgiArgs))
  }

  /** request_handle on a connection. */
  function HandleOutcome(fs: FileSystem, c: Conn): Outcome {
    Handle(fs, Method(c), Uri(c), AfterHeaders(c).Some?)
  }

  /** Everything that the sequential server writes to a connection before it
      closes it; None when it never gets to the close. */
  function SequentialBytes(fs: FileSystem, c: Conn): Option<string> {
    var o := HandleOutcome(fs, c);
    if o.Replies? then Some(Join(Writes(fs, o.reply))) else None
  }

  // ---- The concurrent server's two halves ----

  /** Stuck: request_parse never returns.  Rejected: it wrote an error response
      and closed the descriptor.  Ready: it filled in the request. */
  datatype Parsed = Stuck | Rejected(cause: string, why: Refusal) | Ready(req: Request)

  /** strncpy into an array of MAXBUF bytes, and the terminator. */
  function CopyName(s: string): (t: string)
    ensures |t| <= ROOM
  {
    if |s| <= ROOM then s else s[..ROOM]
  }

  /** request_parse on descriptor fd, once it has the words of the request line. */
  function Parse(fs: FileSystem, requestMethod: string, uri: string, drained: bool, fd: int): (p: Parsed)
    ensures p.Ready? ==> p.req.connFd == fd
  {
    if !EqualIgnoringCase(requestMethod, "GET") then Rejected(requestMethod, NotImplemented)
    else if !drained then Stuck
    else LookUp(fs, Resolve(uri), fd)
  }

  /** request_parse from its stat on. */
  function LookUp(fs: FileSystem, t: Target, fd: int): (p: Parsed)
    ensures p.Ready? ==> p.req.connFd == fd
  {
    if t.filename !in fs then Rejected(t.filename, NotFound)
    else
      var f := fs[t.filename];
      if t.isStatic && (!f.regular || !f.ownerReads) then Rejected(t.filename, CannotRead)
      else if !t.isStatic && (!f.regular || !f.ownerRuns) then Rejected(t.filename, CannotRun)
      else Ready(Request(fd, CopyName(t.filename), CopyName(t.cgiArgs), t.isStatic, CastToInt(|f.content|)))
  }

  /** request_parse on a connection. */
  function ParseOutcome(fs: FileSystem, c: Conn, fd: int): (p: Parsed)
    ensures p.Ready? ==> p.req.connFd == fd
  {
    Parse(fs, Method(c), Uri(c), AfterHeaders(c).Some?, fd)
  }

  /** request_serve. */
  function ServeOutcome(fs: FileSystem, req: Request): Outcome {
    if req.isStatic then StaticOutcome(fs, req.filename, req.filesize)
    else Replies(DynamicReply(req.filename, req.cgiArgs))
  }

  /** What a connection gets from request_parse in the acceptor, on any
      descriptor, and then request_serve in a worker. */
  function PipelineOutcome(fs: FileSystem, c: Conn, fd: int): Outcome {
    match ParseOutcome(fs, c, fd)
    case Stuck => Hangs
    case Rejected(cause, why) => Replies(Refused(cause, why))
    case Ready(req) => ServeOutcome(fs, req)
  }

  /** Splitting request_handle into a parsing and a serving half changes nothing
      that the client can see, whatever number its descriptor has. */
  lemma PipelineIsSequential(fs: FileSystem, c: Conn, fd: int)
    requires Resolves(c) ==> NamesFit(c)
    ensures PipelineOutcome(fs, c, fd) == HandleOutcome(fs, c)
  {
  }

  lemma PipelineIgnoresTheNumber(fs: FileSystem, c: Conn, fd: int, fd': int)
    ensures PipelineOutcome(fs, c, fd) == PipelineOutcome(fs, c, fd')
  {
  }

  // ---- The requests that end the process ----

  /** The server gets as far as looking for a file. */
  predicate Resolves(c: Conn) {
    EqualIgnoringCase(Method(c), "GET") && AfterHeaders(c).Some?
  }

  /** A GET of a regular file that the owner may read. */
  predicate AsksForFile(fs: FileSystem, c: Conn) {
    var t := Resolve(Uri(c));
    && Resolves(c) && t.isStatic && t.filename in fs
    && fs[t.filename].regular && fs[t.filename].ownerReads
  }

  function SizeAsked(fs: FileSystem, c: Conn): nat
    requires AsksForFile(fs, c)
  {
    |fs[Resolve(Uri(c)).filename].content|
  }

  /** The request makes an _or_die check fail: it asks for a file that cannot be
      opened under its copied name or mapped with its size as an int. */
  predicate Kills(fs: FileSystem, c: Conn) {
    AsksForFile(fs, c) && !CanMap(fs, CopyName(Resolve(Uri(c)).filename), CastToInt(SizeAsked(fs, c)))
  }

  lemma CastIsPositive(n: nat)
    ensures CastToInt(n) > 0 <==> 0 < n % INT_RANGE < INT_RANGE / 2
    ensures n < INT_RANGE / 2 ==> CastToInt(n) == n
    ensures CastToInt(n) == n ==> n < INT_RANGE / 2
  {
  }

  /** The conversion keeps the value modulo 2^32 and lands in the range of an int,
      which fixes it. */
  lemma CastToIntIs(n: int)
    ensures -INT_RANGE / 2 <= CastToInt(n) < INT_RANGE / 2
    ensures exists k: int :: CastToInt(n) == n + k * INT_RANGE
  {
    var k := -((n + INT_RANGE / 2) / INT_RANGE);
    assert CastToInt(n) == n + k * INT_RANGE;
  }

  /** What request_parse hands on, and when: any request for something that exists and
      may be used, with its own descriptor, names and size. */
  lemma ReadyRequest(fs: FileSystem, c: Conn, fd: int)
    requires Resolves(c) ==> NamesFit(c)
    ensures var t := Resolve(Uri(c));
            var usable := t.filename in fs && fs[t.filename].regular
                          && (if t.isStatic then fs[t.filename].ownerReads else fs[t.filename].ownerRuns);
            && (ParseOutcome(fs, c, fd).Ready? <==> Resolves(c) && usable)
            && (Resolves(c) && usable ==>
                  ParseOutcome(fs, c, fd).req ==
                  Request(fd, t.filename, t.cgiArgs, t.isStatic, CastToInt(|fs[t.filename].content|)))
  {
  }

  /** The requests that neither server ever answers, by the bytes that the client
      sends: a GET with nothing behind its first line that stops the header loop. */
  lemma HangsIff(fs: FileSystem, c: Conn, fd: int)
    ensures PipelineOutcome(fs, c, fd) == Hangs <==>
              EqualIgnoringCase(Method(c), "GET")
              && StopPoint(c.input[ChunkLen(c.input, ROOM)..], c.junk.headers).None?
    ensures ParseOutcome(fs, c, fd).Stuck? <==> PipelineOutcome(fs, c, fd) == Hangs
    ensures HandleOutcome(fs, c) == Hangs <==> PipelineOutcome(fs, c, fd) == Hangs
  {
    HeaderLoopStops(c.input[ChunkLen(c.input, ROOM)..], c.junk.headers);
  }

  /** The requests that end either server, as conditions on the request line and on
      the size of the file: modulo 2^32 it is zero or at least 2^31. The empty file
      is the smallest. */
  lemma DiesIff(fs: FileSystem, c: Conn, fd: int)
    ensures PipelineOutcome(fs, c, fd) == Dies <==> Kills(fs, c)
    ensures HandleOutcome(fs, c) == Dies <==>
              AsksForFile(fs, c) && !(0 < SizeAsked(fs, c) % INT_RANGE < INT_RANGE / 2)
    ensures NamesFit(c) ==> (Kills(fs, c) <==> HandleOutcome(fs, c) == Dies)
  {
    if AsksForFile(fs, c) {
      CastIsPositive(SizeAsked(fs, c));
    }
  }

  // ---- The requests that the arrays have room for ----

  /** The error page fits the array it is printed into. */
  predicate PageFits(cause: string, why: Refusal) {
    |ErrorBody(cause, why.Errnum(), why.ShortMsg(), why.LongMsg())| <= ROOM
  }

  lemma PageFitsIff(cause: string, why: Refusal)
    ensures PageFits(cause, why) <==> |cause| <= match why
                                                 case NotImplemented => 8008
                                                 case NotFound => 8020
                                                 case CannotRead => 8020
                                                 case CannotRun => 8014
  {
  }

  /** Names that are not too long fit everywhere, whatever files there are. */
  lemma ShortNamesFit(fs: FileSystem, c: Conn)
    requires |Method(c)| <= 8008 && |Uri(c)| <= 8003
    ensures FitsArrays(fs, c)
  {
    var o := HandleOutcome(fs, c);
    ResolvedLengths(Uri(c));
    if o.Replies? && o.reply.Refused? {
      RefusalCause(fs, c);
      PageFitsIff(o.reply.cause, o.reply.why);
    }
  }

  lemma ResolvedLengths(uri: string)
    ensures |Resolve(uri).filename| <= |uri| + 11 && |Resolve(uri).cgiArgs| <= |uri|
  {
  }

  lemma RefusalCause(fs: FileSystem, c: Conn)
    requires HandleOutcome(fs, c).Replies? && HandleOutcome(fs, c).reply.Refused?
    ensures var r := HandleOutcome(fs, c).reply;
            if r.why.NotImplemented? then r.cause == Method(c) else r.cause == Resolve(Uri(c)).filename
  {
  }

  /** Everything that the request makes the server copy or print fits its array. */
  predicate FitsArrays(fs: FileSystem, c: Conn) {
    var o := HandleOutcome(fs, c);
    && (Resolves(c) ==> NamesFit(c))
    && (o.Replies? && o.reply.Refused? ==> PageFits(o.reply.cause, o.reply.why))
  }
}
