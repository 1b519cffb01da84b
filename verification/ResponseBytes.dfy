/** The responses byte by byte, for each kind of request. */
module ResponseBytes {
  import opened Requests
  import opened LineReader
  import opened HttpText
  import opened RequestHandling
  import opened ResponseFraming

  // ---- Error pages ----

  /** An error page with its heading, its sentence and the words of the client. */
  function Page(heading: string, sentence: string, cause: string): string {
    "<!doctype html>\r\n<head>\r\n  <title>OSTEP WebServer Error</title>\r\n</head>\r\n<body>\r\n  <h2>"
    + heading + "</h2>\r\n  <p>" + sentence + ": " + cause + "</p>\r\n</body>\r\n</html>\r\n"
  }

  /** The whole response that carries a page. */
  function WithPage(status: string, page: string): string {
    "HTTP/1.0 " + status + "\r\n" + "Content-Type: text/html\r\n"
    + "Content-Length: " + Decimal(|page|) + "\r\n\r\n" + page
  }

  lemma PageIs(cause: string, errnum: string, shortmsg: string, longmsg: string)
    ensures ErrorBody(cause, errnum, shortmsg, longmsg) == Page(errnum + ": " + shortmsg, longmsg, cause)
  {
  }

  lemma FourParts(line: string, kind: string, length: string, cr: string, page: string)
    requires cr == "\r\n"
    ensures (line + cr) + ((kind + cr) + ((length + cr + cr) + page)) ==
            line + cr + (kind + cr) + length + (cr + cr) + page
  {
  }

  lemma PageBytes(fs: FileSystem, c: Conn, cause: string, why: Refusal)
    requires HandleOutcome(fs, c) == Replies(Refused(cause, why))
    ensures SequentialBytes(fs, c) ==
            Some(WithPage(why.Errnum() + " " + why.ShortMsg(),
                          Page(why.Errnum() + ": " + why.ShortMsg(), why.LongMsg(), cause)))
  {
    WritesOfPage(cause, why.Errnum(), why.ShortMsg(), why.LongMsg());
  }

  lemma WritesOfPage(cause: string, errnum: string, shortmsg: string, longmsg: string)
    ensures Join(ErrorWrites(cause, errnum, shortmsg, longmsg)) ==
            WithPage(errnum + " " + shortmsg, Page(errnum + ": " + shortmsg, longmsg, cause))
  {
    var body := ErrorBody(cause, errnum, shortmsg, longmsg);
    PageIs(cause, errnum, shortmsg, longmsg);
    JoinFour(StatusWrite(errnum, shortmsg), TYPE_WRITE, LengthWrite(body), body);
    FourParts(ErrorLine(errnum, shortmsg), TYPE_LINE, LengthLine(|body|), CRLF, body);
    LineParts(errnum, shortmsg);
    assert TYPE_LINE + CRLF == "Content-Type: text/html\r\n";
    WithPageParts(errnum + " " + shortmsg, body);
  }

  lemma LineParts(errnum: string, shortmsg: string)
    ensures ErrorLine(errnum, shortmsg) == "HTTP/1.0 " + (errnum + " " + shortmsg)
  {
  }

  lemma WithPageParts(status: string, page: string)
    ensures WithPage(status, page) ==
            ("HTTP/1.0 " + status) + CRLF + "Content-Type: text/html\r\n" + LengthLine(|page|) + (CRLF + CRLF) + page
  {
  }

  /** Another method than GET is answered with the method in the page. */
  lemma NotImplementedBytes(fs: FileSystem, c: Conn)
    requires !EqualIgnoringCase(Method(c), "GET")
    ensures SequentialBytes(fs, c) ==
            Some(WithPage("501 Not Implemented",
                          Page("501: Not Implemented", "server does not implement this method", Method(c))))
  {
    PageBytes(fs, c, Method(c), NotImplemented);
    Words501();
  }

  lemma AnsweredByName(fs: FileSystem, c: Conn)
    requires Resolves(c)
    ensures HandleOutcome(fs, c) == Answer(fs, Resolve(Uri(c)))
  {
  }

  /** A missing file is answered with its name in the page. */
  lemma NotFoundBytes(fs: FileSystem, c: Conn, name: string)
    requires Resolves(c) && name == Resolve(Uri(c)).filename && name !in fs
    ensures SequentialBytes(fs, c) ==
            Some(WithPage("404 Not found", Page("404: Not found", "server could not find this file", name)))
  {
    AnsweredByName(fs, c);
    PageBytes(fs, c, name, NotFound);
    Words404();
  }

  lemma ForbiddenBytes(fs: FileSystem, c: Conn, name: string, why: Refusal)
    requires HandleOutcome(fs, c) == Replies(Refused(name, why)) && (why.CannotRead? || why.CannotRun?)
    ensures SequentialBytes(fs, c) ==
            Some(WithPage("403 Forbidden", Page("403: Forbidden", why.LongMsg(), name)))
  {
    PageBytes(fs, c, name, why);
    Words403();
  }

  /** So is a file that may not be read, */
  lemma CannotReadBytes(fs: FileSystem, c: Conn, name: string)
    requires Resolves(c) && Resolve(Uri(c)).isStatic && name == Resolve(Uri(c)).filename && name in fs
    requires !fs[name].regular || !fs[name].ownerReads
    ensures SequentialBytes(fs, c) ==
            Some(WithPage("403 Forbidden", Page("403: Forbidden", "server could not read this file", name)))
  {
    AnsweredByName(fs, c);
    ForbiddenBytes(fs, c, name, CannotRead);
  }

  /** and a program that may not be run, in other words. */
  lemma CannotRunBytes(fs: FileSystem, c: Conn, name: string)
    requires Resolves(c) && !Resolve(Uri(c)).isStatic && name == Resolve(Uri(c)).filename && name in fs
    requires !fs[name].regular || !fs[name].ownerRuns
    ensures SequentialBytes(fs, c) ==
            Some(WithPage("403 Forbidden", Page("403: Forbidden", "server could not run this CGI program", name)))
  {
    AnsweredByName(fs, c);
    ForbiddenBytes(fs, c, name, CannotRun);
  }

  lemma Words501()
    ensures "501" + " " + "Not Implemented" == "501 Not Implemented"
    ensures "501" + ": " + "Not Implemented" == "501: Not Implemented"
  {
  }

  lemma Words404()
    ensures "404" + " " + "Not found" == "404 Not found"
    ensures "404" + ": " + "Not found" == "404: Not found"
  {
  }

  lemma Words403()
    ensures "403" + " " + "Forbidden" == "403 Forbidden"
    ensures "403" + ": " + "Forbidden" == "403: Forbidden"
  {
  }

  // ---- Files and programs ----

  /** The two lines that every successful response starts with. */
  const OK_HEAD: string := "HTTP/1.0 200 OK\r\nServer: OSTEP WebServer\r\n"

  lemma OkHead()
    ensures OK_WRITE == OK_HEAD
  {
  }

  /** The kind of a file: by the first of the three endings that stands anywhere in
      its name. */
  lemma KindOfFile(filename: string)
    ensures var html, gif, jpg := exists i: nat :: At(filename, i, ".html"), exists i: nat :: At(filename, i, ".gif"),
                                  exists i: nat :: At(filename, i, ".jpg");
            FileType(filename) == if html then "text/html" else if gif then "image/gif"
                                  else if jpg then "image/jpeg" else "text/plain"
  {
    SubstringIff(filename, ".html");
    SubstringIff(filename, ".gif");
    SubstringIff(filename, ".jpg");
  }

  /** A file whose size fits an int comes whole behind its header. */
  lemma FileBytes(fs: FileSystem, c: Conn)
    requires AsksForFile(fs, c) && 0 < SizeAsked(fs, c) < INT_RANGE / 2
    ensures var name := Resolve(Uri(c)).filename;
            SequentialBytes(fs, c) ==
            Some(OK_HEAD + "Content-Length: " + Decimal(SizeAsked(fs, c)) + "\r\n"
                 + "Content-Type: " + FileType(name) + "\r\n\r\n" + fs[name].content)
  {
    var name, size := Resolve(Uri(c)).filename, SizeAsked(fs, c);
    var content := fs[name].content;
    CastIsPositive(size);
    assert content[..size] == content;
    JoinTwo(StaticHeader(name, size), content);
    OkHead();
    HeaderParts(name, size);
  }

  lemma HeaderParts(name: string, size: nat)
    ensures StaticHeader(name, size) ==
            OK_WRITE + "Content-Length: " + Decimal(size) + "\r\n" + "Content-Type: " + FileType(name) + "\r\n\r\n"
  {
    assert CRLF + CRLF == "\r\n\r\n";
  }

  lemma {:induction false} BeforeQueryIs(a: string, b: string)
    requires '?' !in a
    ensures BeforeQuery(a + "?" + b) == a
  {
    var s := a + "?" + b;
    if a != "" {
      assert s[1..] == a[1..] + "?" + b;
      BeforeQueryIs(a[1..], b);
    }
  }

  lemma CutOnce(a: string, b: string, c: string, d: string)
    requires '?' !in a && '?' !in c && a + "?" + b == c + "?" + d
    ensures a == c && b == d
  {
    BeforeQueryIs(a, b);
    BeforeQueryIs(c, d);
    assert b == (a + "?" + b)[|a| + 1..] && d == (c + "?" + d)[|c| + 1..];
  }

  lemma ResolveCuts(uri: string, path: string, args: string)
    requires uri == path + "?" + args && '?' !in path && exists i: nat :: At(uri, i, "cgi")
    ensures Resolve(uri) == Target(false, "." + path, args)
  {
    var t := Resolve(uri);
    ResolveSplitsTheUri(uri);
    assert uri[|path|] == '?';
    assert "." + uri == ("." + path) + "?" + args;
    CutOnce("." + path, args, t.filename, t.cgiArgs);
  }

  /** A GET of a program that may be run. */
  ghost predicate AsksForProgram(fs: FileSystem, c: Conn, name: string) {
    && Resolves(c) && (exists i: nat :: At(Uri(c), i, "cgi"))
    && name in fs && fs[name].regular && fs[name].ownerRuns
  }

  /** A program gets what follows the first question mark of the URI, and the client
      gets what it prints for that, behind two lines of the server. */
  lemma ProgramBytes(fs: FileSystem, c: Conn, path: string, args: string)
    requires Uri(c) == path + "?" + args && '?' !in path
    requires AsksForProgram(fs, c, "." + path) && args in fs["." + path].cgi
    ensures SequentialBytes(fs, c) == Some(OK_HEAD + fs["." + path].cgi[args])
  {
    ResolveCuts(Uri(c), path, args);
    ProgramReplies(fs, c, "." + path, args);
  }

  /** Without a question mark it gets the empty string. */
  lemma ProgramBytesWithoutArguments(fs: FileSystem, c: Conn)
    requires '?' !in Uri(c) && AsksForProgram(fs, c, "." + Uri(c)) && "" in fs["." + Uri(c)].cgi
    ensures SequentialBytes(fs, c) == Some(OK_HEAD + fs["." + Uri(c)].cgi[""])
  {
    ResolveSplitsTheUri(Uri(c));
    ProgramReplies(fs, c, "." + Uri(c), "");
  }

  lemma ProgramReplies(fs: FileSystem, c: Conn, name: string, args: string)
    requires AsksForProgram(fs, c, name) && args in fs[name].cgi
    requires Resolve(Uri(c)) == Target(false, name, args)
    ensures SequentialBytes(fs, c) == Some(OK_HEAD + fs[name].cgi[args])
  {
    OkHead();
    JoinTwo(OK_WRITE, fs[name].cgi[args]);
  }
}
