/** What a client makes of the bytes: a reader of HTTP/1.0 responses (sections 6
    and 10.4 of RFC 1945) recovers the status and the body from everything the
    server writes, and the load client recovers the status. */
module ResponseFraming {
  import opened Requests
  import opened LineReader
  import opened HttpText
  import opened RequestHandling
  import opened RequestFraming

  // ---- Two readers ----

  datatype Response = Response(status: nat, body: string)

  /** The value of a header line with this field name. */
  function FieldValue(line: string, name: string): Option<string> {
    if |line| >= |name| + 2 && EqualIgnoringCase(line[..|name|], name)
       && line[|name|] == ':' && line[|name| + 1] == ' '
    then Some(line[|name| + 2..]) else None
  }

  const CONTENT_LENGTH: string := "Content-Length"

  lemma {:induction false} SplitLineShrinks(s: string)
    ensures SplitLine(s).Some? ==> |SplitLine(s).value.1| < |s|
  {
    if |s| >= 2 && !(s[0] == '\r' && s[1] == '\n') {
      SplitLineShrinks(s[1..]);
    }
  }

  /** The header fields up to the empty line: the Content-Length among them, and
      what follows. */
  function ReadFields(s: string, length: Option<nat>): Option<(Option<nat>, string)>
    decreases |s|
  {
    SplitLineShrinks(s);
    match SplitLine(s)
    case None => None
    case Some(p) =>
      if p.0 == "" then Some((length, p.1))
      else
        var v := FieldValue(p.0, CONTENT_LENGTH);
        ReadFields(p.1, if v.Some? then ParseDecimal(v.value) else length)
  }

  function StatusOfLine(line: string): Option<nat> {
    var words := Words(line);
    if |words| >= 2 then ParseDecimal(words[1]) else None
  }

  /** A response with a Content-Length whose body has exactly that length. */
  function ReadResponse(s: string): Option<Response> {
    match SplitLine(s)
    case None => None
    case Some(p) =>
      match ReadFields(p.1, None)
      case None => None
      case Some(f) =>
        if StatusOfLine(p.0).Some? && f.0 == Some(|f.1|) then Some(Response(StatusOfLine(p.0).value, f.1)) else None
  }

  /** The status that http_get extracts: 0 when there is none. */
  function ClientStatus(data: string): nat {
    var split := SplitLine(data);
    var status := StatusOfLine(if split.Some? then split.value.0 else data);
    if status.Some? then status.value else 0
  }

  // ---- Lines ----

  lemma ReadOneField(line: string, rest: string, length: Option<nat>)
    requires line != "" && '\r' !in line
    ensures var v := FieldValue(line, CONTENT_LENGTH);
            ReadFields(line + CRLF + rest, length) ==
            ReadFields(rest, if v.Some? then ParseDecimal(v.value) else length)
  {
    SplitOfLine(line, rest);
  }

  lemma ReadLastLine(rest: string, length: Option<nat>)
    ensures ReadFields(CRLF + rest, length) == Some((length, rest))
  {
    SplitOfLine("", rest);
    assert "" + CRLF + rest == CRLF + rest;
  }

  lemma LengthLineValue(n: nat)
    ensures LengthLine(n) != "" && '\r' !in LengthLine(n)
    ensures FieldValue(LengthLine(n), CONTENT_LENGTH) == Some(Decimal(n))
    ensures ParseDecimal(Decimal(n)) == Some(n)
  {
    var line, d, prefix := LengthLine(n), Decimal(n), "Content-Length: ";
    ParseOfDecimal(n);
    assert '\r' !in prefix;
    assert prefix[..|CONTENT_LENGTH|] == CONTENT_LENGTH;
    assert line[..|CONTENT_LENGTH|] == prefix[..|CONTENT_LENGTH|];
    assert line[|CONTENT_LENGTH| + 2..] == d;
  }

  /** A status line in which a number stands between two spaces. */
  lemma StatusLine(errnum: string, phrase: string)
    requires IsWord(errnum)
    ensures StatusOfLine("HTTP/1.0" + (" " + (errnum + (" " + phrase)))) == ParseDecimal(errnum)
  {
    var tail := " " + phrase;
    WordsOfText(errnum, tail);
    var rest := " " + (errnum + tail);
    WordsOfText("HTTP/1.0", rest);
    assert rest[1..] == errnum + tail;
  }

  // ---- Error responses ----

  lemma JoinTwo(a: string, b: string)
    ensures Join([a, b]) == a + b
  {
    assert [a, b][1..] == [b] && [b][1..] == [];
    assert Join([b]) == b + Join([]);
    assert b + "" == b;
  }

  lemma JoinFour(a: string, b: string, c: string, d: string)
    ensures Join([a, b, c, d]) == a + (b + (c + d))
  {
    assert [a, b, c, d][1..] == [b, c, d] && [b, c, d][1..] == [c, d];
    JoinTwo(c, d);
    assert Join([b, c, d]) == b + Join([c, d]);
  }

  lemma RegroupError(line: string, kind: string, length: string, cr: string, body: string)
    ensures (line + cr) + ((kind + cr) + ((length + cr + cr) + body)) ==
            line + cr + (kind + cr + (length + cr + (cr + body)))
  {
    assert (length + cr + cr) + body == length + cr + (cr + body);
  }

  lemma RegroupStatic(ok: string, server: string, length: string, kind: string, cr: string, body: string)
    ensures ((ok + cr + server + cr) + length + cr + kind + cr + cr) + body ==
            ok + cr + (server + cr + (length + cr + (kind + cr + (cr + body))))
  {
    var tail := kind + cr + (cr + body);
    assert (kind + cr + cr) + body == tail;
    var middle := length + cr + tail;
    assert (length + cr + (kind + cr + cr)) + body == middle;
    var header := (ok + cr + server + cr) + length + cr + kind + cr + cr;
    assert header == (ok + cr + server + cr) + (length + cr + (kind + cr + cr));
    assert header + body == (ok + cr + server + cr) + middle;
    assert ok + cr + (server + cr + middle) == (ok + cr + server + cr) + middle;
  }

  /** The shape of an error response. */
  lemma ReadErrorShape(line: string, kind: string, body: string)
    requires '\r' !in line && StatusOfLine(line).Some?
    requires kind != "" && '\r' !in kind && FieldValue(kind, CONTENT_LENGTH) == None
    ensures var bytes := line + CRLF + (kind + CRLF + (LengthLine(|body|) + CRLF + (CRLF + body)));
            && ReadResponse(bytes) == Some(Response(StatusOfLine(line).value, body))
            && ClientStatus(bytes) == StatusOfLine(line).value
  {
    var last := CRLF + body;
    var third := LengthLine(|body|) + CRLF + last;
    SplitOfLine(line, kind + CRLF + third);
    ReadOneField(kind, third, None);
    LengthLineValue(|body|);
    ReadOneField(LengthLine(|body|), last, None);
    ReadLastLine(body, Some(|body|));
  }

  /** The shape of a file response. */
  lemma ReadStaticShape(line: string, server: string, kind: string, body: string)
    requires '\r' !in line && StatusOfLine(line).Some?
    requires server != "" && '\r' !in server && FieldValue(server, CONTENT_LENGTH) == None
    requires kind != "" && '\r' !in kind && FieldValue(kind, CONTENT_LENGTH) == None
    ensures var bytes := line + CRLF + (server + CRLF + (LengthLine(|body|) + CRLF + (kind + CRLF + (CRLF + body))));
            && ReadResponse(bytes) == Some(Response(StatusOfLine(line).value, body))
            && ClientStatus(bytes) == StatusOfLine(line).value
  {
    var last := CRLF + body;
    var fourth := kind + CRLF + last;
    var third := LengthLine(|body|) + CRLF + fourth;
    SplitOfLine(line, server + CRLF + third);
    ReadOneField(server, third, None);
    LengthLineValue(|body|);
    ReadOneField(LengthLine(|body|), fourth, None);
    ReadOneField(kind, last, Some(|body|));
    ReadLastLine(body, Some(|body|));
  }

  lemma ThreeDigits(e: string)
    requires |e| == 3 && forall k :: 0 <= k < 3 ==> '0' <= e[k] <= '9'
    ensures ParseDecimal(e) == Some(100 * DigitValue(e[0]) + 10 * DigitValue(e[1]) + DigitValue(e[2]))
    ensures IsWord(e) && '\r' !in e
  {
    assert e[..2] == [e[0], e[1]] && e[..2][..1] == [e[0]];
    assert ParseDecimal(e[..2][..1]) == Some(DigitValue(e[0]));
    assert ParseDecimal(e[..2]) == Some(10 * DigitValue(e[0]) + DigitValue(e[1]));
  }

  predicate Prints(e: string, code: nat) {
    && |e| == 3 && (forall k :: 0 <= k < 3 ==> '0' <= e[k] <= '9')
    && code == 100 * DigitValue(e[0]) + 10 * DigitValue(e[1]) + DigitValue(e[2])
  }

  lemma StatusOfCode(line: string, e: string, phrase: string, code: nat)
    requires line == "HTTP/1.0" + (" " + (e + (" " + phrase))) && Prints(e, code) && '\r' !in phrase
    ensures '\r' !in line && StatusOfLine(line) == Some(code)
  {
    ThreeDigits(e);
    StatusLine(e, phrase);
  }

  lemma ErrorLineParts(e: string, phrase: string)
    ensures ErrorLine(e, phrase) == "HTTP/1.0" + (" " + (e + (" " + phrase)))
  {
  }

  lemma RefusalWords(why: Refusal)
    ensures var line := ErrorLine(why.Errnum(), why.ShortMsg());
            '\r' !in line && StatusOfLine(line) == Some(why.Code())
  {
    var e, phrase := why.Errnum(), why.ShortMsg();
    ErrorLineParts(e, phrase);
    assert Prints(e, why.Code()) && '\r' !in phrase;
    StatusOfCode(ErrorLine(e, phrase), e, phrase, why.Code());
  }

  lemma TypeLineIsNoLength()
    ensures TYPE_LINE != "" && '\r' !in TYPE_LINE && FieldValue(TYPE_LINE, CONTENT_LENGTH) == None
  {
    assert TYPE_LINE[..|CONTENT_LENGTH|][8] == 'T' && CONTENT_LENGTH[8] == 'L';
  }

  /** The reader gets back every error page, whatever the client put into its
      request, as long as the page fits its array: its status, and a body of exactly
      the announced length. */
  lemma RefusalRoundTrip(cause: string, why: Refusal)
    requires PageFits(cause, why)
    ensures var bytes := Join(RefusalWrites(cause, why));
            && ReadResponse(bytes) ==
               Some(Response(why.Code(), ErrorBody(cause, why.Errnum(), why.ShortMsg(), why.LongMsg())))
            && ClientStatus(bytes) == why.Code()
  {
    RefusalWords(why);
    TypeLineIsNoLength();
    ErrorRoundTrip(cause, why.Errnum(), why.ShortMsg(), why.LongMsg(), why.Code());
  }

  lemma ErrorRoundTrip(cause: string, errnum: string, shortmsg: string, longmsg: string, code: nat)
    requires '\r' !in ErrorLine(errnum, shortmsg) && StatusOfLine(ErrorLine(errnum, shortmsg)) == Some(code)
    requires TYPE_LINE != "" && '\r' !in TYPE_LINE && FieldValue(TYPE_LINE, CONTENT_LENGTH) == None
    ensures var bytes := Join(ErrorWrites(cause, errnum, shortmsg, longmsg));
            && ReadResponse(bytes) == Some(Response(code, ErrorBody(cause, errnum, shortmsg, longmsg)))
            && ClientStatus(bytes) == code
  {
    var body, line := ErrorBody(cause, errnum, shortmsg, longmsg), ErrorLine(errnum, shortmsg);
    JoinFour(StatusWrite(errnum, shortmsg), TYPE_WRITE, LengthWrite(body), body);
    RegroupError(line, TYPE_LINE, LengthLine(|body|), CRLF, body);
    ReadErrorShape(line, TYPE_LINE, body);
  }

  // ---- Files ----

  lemma OkLineParts(e: string, phrase: string)
    requires e == "200" && phrase == "OK"
    ensures OK_LINE == "HTTP/1.0" + (" " + (e + (" " + phrase)))
    ensures Prints(e, 200) && '\r' !in phrase
  {
    assert OK_LINE[..8] == "HTTP/1.0";
    assert OK_LINE[8..] == " 200 OK" && " 200 OK"[1..] == "200 OK" && "200 OK"[..3] == e && "200 OK"[3..] == " OK";
  }

  lemma OkWordsFrom(e: string, phrase: string)
    requires e == "200" && phrase == "OK"
    ensures '\r' !in OK_LINE && StatusOfLine(OK_LINE) == Some(200)
  {
    OkLineParts(e, phrase);
    StatusOfCode(OK_LINE, e, phrase, 200);
  }

  lemma OkWords()
    ensures '\r' !in OK_LINE && StatusOfLine(OK_LINE) == Some(200)
  {
    OkWordsFrom("200", "OK");
  }

  lemma KindLine(kind: string)
    requires '\r' !in kind
    ensures var line := "Content-Type: " + kind;
            line != "" && '\r' !in line && FieldValue(line, CONTENT_LENGTH) == None
  {
    var prefix := "Content-Type: ";
    assert '\r' !in prefix && prefix[8] == 'T' && CONTENT_LENGTH[8] == 'L';
    var line := prefix + kind;
    if |line| >= |CONTENT_LENGTH| {
      assert line[..|CONTENT_LENGTH|][8] == 'T';
    }
  }

  lemma FileTypeIsText(filename: string)
    ensures '\r' !in FileType(filename)
  {
  }

  lemma ServerLineIsNoLength()
    ensures SERVER_LINE != "" && '\r' !in SERVER_LINE && FieldValue(SERVER_LINE, CONTENT_LENGTH) == None
  {
    assert SERVER_LINE[0] == 'S' && CONTENT_LENGTH[0] == 'C';
    assert SERVER_LINE[..|CONTENT_LENGTH|][0] == 'S';
  }

  /** The reader gets back the mapped bytes of every file that the server sends. */
  lemma StaticRoundTrip(fs: FileSystem, filename: string, filesize: int)
    requires CanMap(fs, filename, filesize) && filesize <= |fs[filename].content|
    ensures var bytes := Join(Writes(fs, StaticReply(filename, filesize)));
            && ReadResponse(bytes) == Some(Response(200, fs[filename].content[..filesize]))
            && ClientStatus(bytes) == 200
  {
    var body := MappedBytes(fs, filename, filesize);
    OkWords();
    ServerLineIsNoLength();
    FileTypeIsText(filename);
    KindLine(FileType(filename));
    JoinTwo(StaticHeader(filename, filesize), body);
    RegroupStatic(OK_LINE, SERVER_LINE, LengthLine(filesize), FileTypeLine(filename), CRLF, body);
    ReadStaticShape(OK_LINE, SERVER_LINE, FileTypeLine(filename), body);
  }

  /** A client that asks for a file whose size is positive after the cast gets as
      much of it as the cast leaves. */
  lemma ClientGetsTheCast(fs: FileSystem, c: Conn)
    requires AsksForFile(fs, c) && CastToInt(SizeAsked(fs, c)) > 0
    ensures CastToInt(SizeAsked(fs, c)) <= SizeAsked(fs, c)
    ensures var bytes, content := SequentialBytes(fs, c), fs[Resolve(Uri(c)).filename].content;
            bytes.Some? && ReadResponse(bytes.value) == Some(Response(200, content[..CastToInt(SizeAsked(fs, c))]))
  {
    CastShrinks(SizeAsked(fs, c));
    StaticRoundTrip(fs, Resolve(Uri(c)).filename, CastToInt(SizeAsked(fs, c)));
  }

  /** A client that asks for a file gets the whole of it if and only if its size is
      positive and fits a 32-bit int: the server maps, announces and sends the size
      after the cast. */
  lemma WholeFileIffSizeFits(fs: FileSystem, c: Conn)
    requires AsksForFile(fs, c)
    ensures var bytes, content := SequentialBytes(fs, c), fs[Resolve(Uri(c)).filename].content;
            bytes.Some? && ReadResponse(bytes.value) == Some(Response(200, content)) <==>
            0 < |content| < INT_RANGE / 2
  {
    var content := fs[Resolve(Uri(c)).filename].content;
    CastIsPositive(|content|);
    if CastToInt(|content|) > 0 {
      ClientGetsTheCast(fs, c);
      assert content[..|content|] == content;
    }
  }

  lemma CastShrinks(n: nat)
    ensures CastToInt(n) <= n
  {
  }

  // ---- Requests that show where promises end ----

  function PlainRequest(uri: string): (c: Conn)
    ensures c.input == RequestText("localhost", uri)
  {
    RawConn(RequestText("localhost", uri), Junk(seq(MAXBUF, _ => NUL), seq(MAXBUF, _ => NUL), "", ""))
  }

  predicate IsPlain(uri: string) {
    IsWord(uri) && NUL !in uri && 'c' !in uri && uri[|uri| - 1] != '/' && |uri| + 15 <= ROOM
  }

  lemma PlainRequestAsks(fs: FileSystem, uri: string)
    requires IsPlain(uri)
    ensures var c := PlainRequest(uri);
            && Resolves(c) && NamesFit(c) && Method(c) == "GET"
            && Resolve(Uri(c)) == Target(true, "." + uri, "")
  {
    RequestRoundTrip(PlainRequest(uri), "localhost", uri);
    if HasSubstring(uri, "cgi") {
      FirstLetter(uri, "cgi");
    }
  }

  lemma FirstLetter(s: string, w: string)
    requires w != "" && HasSubstring(s, w)
    ensures w[0] in s
  {
    SubstringIff(s, w);
    var i: nat :| At(s, i, w);
    assert s[i..i + |w|][0] == s[i];
  }

  function OneFile(name: string, content: string): FileSystem {
    map[name := File(true, true, true, content, map[])]
  }

  /** A GET of an empty file ends the process. */
  lemma EmptyFileEndsTheProcess() returns (fs: FileSystem, c: Conn)
    ensures AsksForFile(fs, c) && SizeAsked(fs, c) == 0 && FitsArrays(fs, c)
    ensures Kills(fs, c) && HandleOutcome(fs, c) == Dies && SequentialBytes(fs, c) == None
  {
    fs, c := FileOfSize(0);
    DiesIff(fs, c, 0);
  }

  /** Of a file of 2^32 + 1 bytes the client gets the first. */
  lemma HugeFileIsCut() returns (fs: FileSystem, c: Conn)
    ensures AsksForFile(fs, c) && SizeAsked(fs, c) == INT_RANGE + 1 && FitsArrays(fs, c)
    ensures SequentialBytes(fs, c).Some?
    ensures ReadResponse(SequentialBytes(fs, c).value) ==
            Some(Response(200, fs[Resolve(Uri(c)).filename].content[..1]))
  {
    fs, c := FileOfSize(INT_RANGE + 1);
    OneByteIsLeft(fs, c);
  }

  lemma OneByteIsLeft(fs: FileSystem, c: Conn)
    requires AsksForFile(fs, c) && SizeAsked(fs, c) == INT_RANGE + 1
    ensures SequentialBytes(fs, c).Some?
    ensures ReadResponse(SequentialBytes(fs, c).value) ==
            Some(Response(200, fs[Resolve(Uri(c)).filename].content[..1]))
  {
    assert CastToInt(INT_RANGE + 1) == 1;
    ClientGetsTheCast(fs, c);
  }

  lemma FileOfSize(size: nat) returns (fs: FileSystem, c: Conn)
    ensures AsksForFile(fs, c) && SizeAsked(fs, c) == size && FitsArrays(fs, c)
  {
    var uri, content := "/e", seq(size, _ => 'x');
    fs, c := OneFile("." + uri, content), PlainRequest(uri);
    PlainRequestAsks(fs, uri);
  }

  /** A GET of a missing file whose name is too long for its error page, although it
      fits its own array. */
  lemma LongNameOverflowsThePage() returns (fs: FileSystem, c: Conn)
    ensures NamesFit(c) && HandleOutcome(fs, c).Replies? && !FitsArrays(fs, c)
  {
    var uri := "/" + seq(8019, _ => 'a');
    fs, c := map[], PlainRequest(uri);
    PlainRequestAsks(fs, uri);
    PageFitsIff("." + uri, NotFound);
  }

  // ---- Programs ----

  /** Whatever a program prints, the client sees the server's status line. */
  lemma DynamicStatus(fs: FileSystem, filename: string, cgiArgs: string)
    ensures ClientStatus(Join(Writes(fs, DynamicReply(filename, cgiArgs)))) == 200
  {
    OkWords();
    JoinTwo(OK_WRITE, ProgramOutput(fs, filename, cgiArgs));
    FirstLineStatus(OK_LINE, SERVER_LINE, CRLF, ProgramOutput(fs, filename, cgiArgs));
  }

  lemma FirstLineStatus(line: string, server: string, cr: string, rest: string)
    requires '\r' !in line && StatusOfLine(line).Some? && cr == CRLF
    ensures ClientStatus((line + cr + server + cr) + rest) == StatusOfLine(line).value
  {
    assert (line + cr + server + cr) + rest == line + cr + (server + cr + rest);
    SplitOfLine(line, server + cr + rest);
  }

  /** The status due to a reply. */
  function StatusDue(r: Reply): nat {
    if r.Refused? then r.why.Code() else 200
  }

  /** The load client reads off every response of the server, static or not, the
      status that the server decided on. */
  lemma ClientSeesTheStatus(fs: FileSystem, c: Conn)
    requires HandleOutcome(fs, c).Replies? && FitsArrays(fs, c)
    ensures var r := HandleOutcome(fs, c).reply;
            ClientStatus(Join(Writes(fs, r))) == StatusDue(r)
  {
    match HandleOutcome(fs, c).reply
    case Refused(cause, why) => RefusalRoundTrip(cause, why);
    case StaticReply(filename, filesize) =>
      StaticReplyFits(fs, c);
      StaticRoundTrip(fs, filename, filesize);
    case DynamicReply(filename, cgiArgs) => DynamicStatus(fs, filename, cgiArgs);
  }

  lemma StaticReplyFits(fs: FileSystem, c: Conn)
    requires HandleOutcome(fs, c).Replies? && HandleOutcome(fs, c).reply.StaticReply?
    ensures var r := HandleOutcome(fs, c).reply;
            && CanMap(fs, r.filename, r.filesize)
            && r.filesize == CastToInt(|fs[r.filename].content|) <= |fs[r.filename].content|
  {
    CastShrinks(|fs[HandleOutcome(fs, c).reply.filename].content|);
  }

  // ---- What is no response ----

  /** The load client reports status 0 exactly when the first line has no second word
      that is a number, or when the number is 0; for an empty response above all. */
  lemma NoStatus(data: string)
    ensures var first := if SplitLine(data).Some? then SplitLine(data).value.0 else data;
            var words := Words(first);
            && (|words| < 2 ==> ClientStatus(data) == 0)
            && (|words| >= 2 && !(forall k :: 0 <= k < |words[1]| ==> '0' <= words[1][k] <= '9') ==>
                  ClientStatus(data) == 0)
    ensures ClientStatus("") == 0
  {
    var words := Words(if SplitLine(data).Some? then SplitLine(data).value.0 else data);
    if |words| >= 2 {
      NumbersAreDigits(words[1]);
    }
    assert SplitLine("") == None && SkipSpace("") == "" && Words("") == [];
  }
}
