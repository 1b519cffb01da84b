/** What the server makes of the load client's own requests: it gets back the URI
    and finds the end of the header section. */
module RequestFraming {
  import opened Requests
  import opened LineReader
  import opened HttpText
  import opened RequestHandling

  /** The text that http_get sends. */
  function RequestText(host: string, uri: string): string {
    RequestLine(uri) + (HostLine(host) + (CLOSE_LINE + CRLF))
  }

  function RequestLine(uri: string): string {
    "GET" + (" " + (uri + VERSION))
  }

  const VERSION: string := " HTTP/1.0\r\n"

  function HostLine(host: string): string {
    "Host: " + host + CRLF
  }

  const CLOSE_LINE: string := "Connection: close\r\n"

  predicate IsLine(line: string) {
    line != "" && line[|line| - 1] == LF && forall i :: 0 <= i < |line| - 1 ==> line[i] != LF
  }

  lemma SkipLine(line: string, rest: string)
    requires IsLine(line)
    ensures AfterBlankLine(line + rest) == if line == "\r\n" then Some(rest) else AfterBlankLine(rest)
    ensures Mistaken(line + rest) <==> line != "\r\n" && (Stops(line) || Mistaken(rest))
  {
    var s := line + rest;
    LineLenIs(s, |line|);
    assert s[..|line|] == line && s[|line|..] == rest;
  }

  lemma FirstLine(line: string, rest: string)
    requires IsLine(line) && |line| <= ROOM
    ensures ChunkLen(line + rest, ROOM) == |line| && (line + rest)[|line|..] == rest
  {
    ChunkLenIs(line + rest, ROOM, |line|);
  }

  lemma {:induction false} CStringStops(t: string, rest: string)
    requires NUL !in t
    ensures CString(t + [NUL] + rest) == t
  {
    var s := t + [NUL] + rest;
    if t != "" {
      assert s[1..] == t[1..] + [NUL] + rest;
      CStringStops(t[1..], rest);
      assert t == [t[0]] + t[1..];
    }
  }

  /** What readline and sscanf see of the first line. */
  lemma LineInArray(line: string, rest: string, old': string)
    requires IsLine(line) && |line| <= ROOM && NUL !in line && |old'| == MAXBUF
    ensures CString(Filled(old', line + rest, ROOM)) == line
  {
    FirstLine(line, rest);
    assert (line + rest)[..|line|] == line;
    CStringStops(line, old'[|line| + 1..]);
  }

  lemma TwoWords(first: string, second: string, tail: string)
    requires IsWord(first) && IsWord(second) && tail != "" && IsSpace(tail[0])
    ensures var words := Words(first + (" " + (second + tail)));
            |words| >= 2 && words[0] == first && words[1] == second
  {
    var rest := " " + (second + tail);
    WordsOfText(first, rest);
    assert rest[1..] == second + tail;
    WordsOfText(second, tail);
  }

  lemma LongerLine(front: string, line: string)
    requires LF !in front && IsLine(line)
    ensures IsLine(front + line)
  {
  }

  lemma RequestLineIsLine(uri: string)
    requires IsWord(uri) && NUL !in uri
    ensures IsLine(RequestLine(uri)) && NUL !in RequestLine(uri) && |RequestLine(uri)| == |uri| + 15
  {
    assert |VERSION| == 11 && IsLine(VERSION) && NUL !in VERSION;
    LongerLine(uri, VERSION);
    LongerLine(" ", uri + VERSION);
    LongerLine("GET", " " + (uri + VERSION));
  }

  lemma HostLineIsLine(host: string)
    requires LF !in host
    ensures IsLine(HostLine(host)) && |HostLine(host)| == |host| + 8 && HostLine(host) != CRLF
  {
    assert IsLine(CRLF);
    LongerLine(host, CRLF);
    LongerLine("Host: ", host + CRLF);
    assert "Host: " + (host + CRLF) == HostLine(host);
  }

  lemma CloseLineIsLine()
    ensures IsLine(CLOSE_LINE) && |CLOSE_LINE| == 19
  {
  }

  lemma EmptyEnd()
    ensures AfterBlankLine(CRLF) == Some("") && !Mistaken(CRLF)
  {
    SkipLine(CRLF, "");
    assert CRLF + "" == CRLF;
  }

  predicate IsHeader(line: string) {
    IsLine(line) && line != CRLF && !Stops(line)
  }

  /** Header lines are skipped up to the blank one. */
  lemma HeadersEnd(first: string, second: string, old': string)
    requires IsHeader(first) && IsHeader(second) && |old'| == MAXBUF
    ensures DrainHeaders(first + (second + CRLF), old') == Some("")
  {
    SkipLine(first, second + CRLF);
    SkipLine(second, CRLF);
    EmptyEnd();
    DrainsToBlankLineIff(first + (second + CRLF), old');
  }

  lemma HeadersOfRequest(host: string, old': string)
    requires LF !in host && (|host| + 8) % ROOM != 2 && |old'| == MAXBUF
    ensures DrainHeaders(HostLine(host) + (CLOSE_LINE + CRLF), old') == Some("")
  {
    HostLineIsLine(host);
    CloseLineIsLine();
    HeadersEnd(HostLine(host), CLOSE_LINE, old');
  }

  lemma AnyLineIsLine(method_: string, uri: string)
    requires IsWord(method_) && IsWord(uri) && NUL !in method_ && NUL !in uri
    ensures var line := method_ + (" " + (uri + VERSION));
            IsLine(line) && NUL !in line && |line| == |method_| + |uri| + 12
  {
    assert |VERSION| == 11 && IsLine(VERSION) && NUL !in VERSION;
    LongerLine(uri, VERSION);
    LongerLine(" ", uri + VERSION);
    LongerLine(method_, " " + (uri + VERSION));
  }

  /** Whatever the method and whatever follows, the server gets back the two words. */
  lemma AnyMethodComesBack(c: Conn, method_: string, uri: string, rest: string)
    requires c.input == (method_ + (" " + (uri + VERSION))) + rest
    requires IsWord(method_) && IsWord(uri) && NUL !in method_ && NUL !in uri && |method_| + |uri| + 12 <= ROOM
    ensures Method(c) == method_ && Uri(c) == uri
  {
    AnyLineIsLine(method_, uri);
    LineInArray(method_ + (" " + (uri + VERSION)), rest, c.junk.line);
    TwoWords(method_, uri, VERSION);
  }

  /** A line with one word leaves the URI as the array happened to be. */
  lemma OneWordComesBack(c: Conn, method_: string, rest: string)
    requires c.input == (method_ + "\r\n") + rest
    requires IsWord(method_) && NUL !in method_ && |method_| + 2 <= ROOM
    ensures Method(c) == method_ && Uri(c) == c.junk.uri
  {
    assert IsLine("\r\n");
    LongerLine(method_, "\r\n");
    LineInArray(method_ + "\r\n", rest, c.junk.line);
    WordsOfText(method_, "\r\n");
    assert "\r\n"[1..] == "\n" && "\n"[1..] == "";
    assert SkipSpace("\n") == "" && SkipSpace("\r\n") == "";
  }

  /** The server gets back exactly the URI that the load client put into its request
      and leaves nothing unread, whatever its arrays held before. */
  lemma RequestRoundTrip(c: Conn, host: string, uri: string)
    requires c.input == RequestText(host, uri)
    requires IsWord(uri) && NUL !in uri && |uri| + 15 <= ROOM
    requires LF !in host && (|host| + 8) % ROOM != 2
    ensures Method(c) == "GET" && Uri(c) == uri && AfterHeaders(c) == Some("")
  {
    var line, rest := RequestLine(uri), HostLine(host) + (CLOSE_LINE + CRLF);
    RequestLineIsLine(uri);
    FirstLine(line, rest);
    LineInArray(line, rest, c.junk.line);
    TwoWords("GET", uri, VERSION);
    HeadersOfRequest(host, c.junk.headers);
  }

  /** A client that closes its side behind the request line is never answered. */
  lemma ClosedBehindTheRequestLine(fs: FileSystem, c: Conn, uri: string)
    requires c.input == RequestLine(uri) && IsWord(uri) && NUL !in uri && |uri| + 15 <= ROOM
    ensures HandleOutcome(fs, c) == Hangs
  {
    var line := RequestLine(uri);
    RequestLineIsLine(uri);
    assert line + "" == line;
    FirstLine(line, "");
    LineInArray(line, "", c.junk.line);
    TwoWords("GET", uri, VERSION);
    HangsIff(fs, c, 0);
  }
}
