/** readline and the header loop on top of it, byte for byte: what they consume
    and what they leave in the caller's buffer. */
module LineReader {
  import opened Requests

  const MAXBUF: nat := 8192
  /** The most bytes one readline call takes. */
  const ROOM: nat := MAXBUF - 1
  const NUL: char := '\0'
  const LF: char := '\n'

  /** The bytes of a connection still to be read; the peer sends nothing after
      them. */
  class ByteStream {
    const data: string
    var pos: nat

    ghost predicate Valid()
      reads this
    {
      pos <= |data|
    }

    ghost function Rest(): string
      reads this
      requires Valid()
    {
      data[pos..]
    }

    constructor (data: string)
      ensures Valid() && this.data == data && Rest() == data
    {
      this.data := data;
      pos := 0;
    }

    /** read(fd, &c, 1): one byte, or none at end of file. */
    method ReadByte() returns (c: Option<char>)
      requires Valid()
      modifies this
      ensures Valid()
      ensures old(pos) == |data| ==> c.None? && pos == old(pos)
      ensures old(pos) < |data| ==> c == Some(data[old(pos)]) && pos == old(pos) + 1
    {
      if pos == |data| {
        return None;
      }
      c := Some(data[pos]);
      pos := pos + 1;
    }
  }

  // ---- One readline call ----

  /** How many bytes one call takes from s: up to a newline, room bytes, or all. */
  function ChunkLen(s: string, room: nat): (n: nat)
    ensures n <= |s| && n <= room
  {
    if room == 0 || s == "" then 0
    else if s[0] == LF then 1
    else 1 + ChunkLen(s[1..], room - 1)
  }

  /** readline stores no terminator when end of file follows exactly one byte. */
  predicate Unterminated(s: string, room: nat) {
    room > 1 && |s| == 1 && s[0] != LF
  }

  /** The caller's buffer after one call that found it as old. */
  function Filled(old': string, s: string, room: nat): (b: string)
    requires room < |old'|
    ensures |b| == |old'|
  {
    var n := ChunkLen(s, room);
    if Unterminated(s, room) then s[..n] + old'[n..] else s[..n] + [NUL] + old'[n + 1..]
  }

  /** The value readline returns: the index of the newline, or the number of
      bytes, or 0 when it stored one unterminated byte. */
  function Returned(s: string, room: nat): int {
    var n := ChunkLen(s, room);
    if n > 0 && s[n - 1] == LF then n - 1
    else if Unterminated(s, room) then 0
    else n
  }

  lemma {:induction false} ChunkLenShape(s: string, room: nat)
    ensures var n := ChunkLen(s, room);
            && (forall i :: 0 <= i < n - 1 ==> s[i] != LF)
            && (n < |s| && n < room ==> n > 0 && s[n - 1] == LF)
            && (s != "" && room > 0 ==> n > 0)
  {
    if room > 0 && s != "" && s[0] != LF {
      ChunkLenShape(s[1..], room - 1);
    }
  }

  lemma {:induction false} ChunkLenIs(s: string, room: nat, n: nat)
    requires n <= |s| && n <= room
    requires forall i :: 0 <= i < n - 1 ==> s[i] != LF
    requires (n > 0 && s[n - 1] == LF) || n == room || n == |s|
    ensures ChunkLen(s, room) == n
  {
    if n > 0 && s[0] != LF {
      ChunkLenIs(s[1..], room - 1, n - 1);
    }
  }

  lemma {:induction false} ChunkLenAtNewline(s: string, room: nat, k: nat)
    requires k < |s| && k < room && s[k] == LF && forall i :: 0 <= i < k ==> s[i] != LF
    ensures ChunkLen(s, room) == k + 1
  {
    ChunkLenIs(s, room, k + 1);
  }

  /** readline returns the position of the newline, not the number of bytes; without
      one, the number of bytes, except that behind a single byte at end of file it
      returns 0. */
  lemma ReturnedIs(s: string, room: nat, k: nat)
    requires forall i :: 0 <= i < k && i < |s| ==> s[i] != LF
    ensures k < |s| && k < room && s[k] == LF ==> Returned(s, room) == k
    ensures k == room <= |s| ==> Returned(s, room) == room
    ensures k == |s| < room ==> Returned(s, room) == if |s| == 1 then 0 else |s|
  {
    if k < |s| && k < room && s[k] == LF {
      ChunkLenAtNewline(s, room, k);
    } else if k == room <= |s| || k == |s| < room {
      ChunkLenIs(s, room, k);
    }
  }

  /** readline. */
  method Readline(fd: ByteStream, buf: array<char>, maxlen: nat) returns (n: int)
    requires fd.Valid() && 0 < maxlen <= buf.Length
    modifies fd, buf
    ensures fd.Valid()
    ensures fd.Rest() == old(fd.Rest())[ChunkLen(old(fd.Rest()), maxlen - 1)..]
    ensures buf[..] == Filled(old(buf[..]), old(fd.Rest()), maxlen - 1)
    ensures n == Returned(old(fd.Rest()), maxlen - 1)
  {
    ghost var s, before := fd.Rest(), buf[..];
    var bufp, lone;
    n, bufp, lone := CopyBytes(fd, buf, maxlen);
    ghost var copied := buf[..];
    assert fd.Rest() == s[bufp..];
    if lone {
      assert Filled(before, s, maxlen - 1) == copied;
      return 0; // EOF, and no terminator
    }
    Closed(before, s, maxlen - 1, bufp);
    buf[bufp] := NUL;
    assert buf[..] == copied[bufp := NUL];
  }

  /** The loop of readline. lone reports its early return at end of file. */
  method CopyBytes(fd: ByteStream, buf: array<char>, maxlen: nat) returns (n: int, bufp: nat, lone: bool)
    requires fd.Valid() && 0 < maxlen <= buf.Length
    modifies fd, buf
    ensures fd.Valid() && bufp == ChunkLen(old(fd.Rest()), maxlen - 1)
    ensures fd.pos == old(fd.pos) + bufp
    ensures buf[..] == old(fd.Rest())[..bufp] + old(buf[..])[bufp..]
    ensures lone <==> Unterminated(old(fd.Rest()), maxlen - 1)
    ensures !lone ==> n == Returned(old(fd.Rest()), maxlen - 1)
  {
    ghost var s, before, start := fd.Rest(), buf[..], fd.pos;
    bufp, lone, n := 0, false, 0;
    while n < maxlen - 1
      invariant fd.Valid() && 0 <= bufp == n <= maxlen - 1 && n <= |s|
      invariant fd.pos == start + n
      invariant forall i :: 0 <= i < n ==> buf[i] == s[i] != LF
      invariant forall i :: n <= i < buf.Length ==> buf[i] == before[i]
    {
      var rc := fd.ReadByte();
      if rc.Some? {
        buf[bufp] := rc.value;
        bufp := bufp + 1;
        if rc.value == LF {
          break;
        }
      } else {
        lone := n == 1;
        break;
      }
      n := n + 1;
    }
    assert buf[..] == s[..bufp] + before[bufp..];
    ChunkLenIs(s, maxlen - 1, bufp);
  }

  lemma Closed(before: string, s: string, room: nat, n: nat)
    requires room < |before| && n == ChunkLen(s, room) && !Unterminated(s, room)
    ensures (s[..n] + before[n..])[n := NUL] == Filled(before, s, room)
  {
  }

  // ---- Repeated calls ----

  /** The chunks that repeated calls split s into. */
  function Chunks(s: string, room: nat): seq<string>
    requires room > 0
    decreases |s|
  {
    if s == "" then []
    else
      var n := ChunkLen(s, room);
      [s[..n]] + Chunks(s[n..], room)
  }

  function Join(chunks: seq<string>): string {
    if chunks == [] then "" else chunks[0] + Join(chunks[1..])
  }

  /** Neither empty nor longer than the room, with a newline at most at the end. */
  predicate IsChunk(c: string, room: nat) {
    0 < |c| <= room && forall i :: 0 <= i < |c| - 1 ==> c[i] != LF
  }

  /** As long as a chunk can be. */
  predicate IsFullChunk(c: string, room: nat) {
    |c| == room || (c != "" && c[|c| - 1] == LF)
  }

  lemma FirstChunk(s: string, room: nat)
    requires room > 0 && s != ""
    ensures var n := ChunkLen(s, room);
            && IsChunk(s[..n], room)
            && (n < |s| ==> IsFullChunk(s[..n], room))
            && s[..n] + s[n..] == s
  {
    ChunkLenShape(s, room);
  }

  lemma ChunksUnfold(s: string, room: nat)
    requires room > 0 && s != ""
    ensures var n := ChunkLen(s, room);
            && n > 0 && Chunks(s, room) == [s[..n]] + Chunks(s[n..], room)
            && Join(Chunks(s, room)) == s[..n] + Join(Chunks(s[n..], room))
  {
    ChunkLenShape(s, room);
    assert Chunks(s, room)[1..] == Chunks(s[ChunkLen(s, room)..], room);
  }

  /** Chunking loses nothing: the chunks join to the stream, and each but the last
      goes as far as a chunk can, to the newline or to the end of the room. */
  lemma {:induction false} ChunksAreLossless(s: string, room: nat)
    requires room > 0
    ensures Join(Chunks(s, room)) == s
    ensures forall k :: 0 <= k < |Chunks(s, room)| ==> IsChunk(Chunks(s, room)[k], room)
    ensures forall k :: 0 <= k < |Chunks(s, room)| - 1 ==> IsFullChunk(Chunks(s, room)[k], room)
    decreases |s|
  {
    if s != "" {
      var rest := s[ChunkLen(s, room)..];
      FirstChunk(s, room);
      ChunksUnfold(s, room);
      ChunksAreLossless(rest, room);
    }
  }

  // ---- The header loop ----

  /** The C string that starts at b. */
  function CString(b: string): (s: string)
    ensures |s| <= |b|
  {
    if b == "" || b[0] == NUL then "" else [b[0]] + CString(b[1..])
  }

  predicate IsBlank(b: string) {
    CString(b) == "\r\n"
  }

  lemma BlankBytes(b: string)
    requires |b| >= 3
    ensures IsBlank(b) <==> b[0] == '\r' && b[1] == LF && b[2] == NUL
  {
    assert b[1..][1..] == b[2..] && b[2..][1..] == b[3..];
    var third := if b[2] == NUL then "" else [b[2]] + CString(b[3..]);
    assert CString(b[2..]) == third;
    var second := if b[1] == NUL then "" else [b[1]] + third;
    assert CString(b[1..]) == second;
    assert CString(b) == if b[0] == NUL then "" else [b[0]] + second;
    assert "\r\n" == ['\r'] + ([LF] + "");
    if IsBlank(b) {
      assert CString(b)[0] == b[0] && CString(b)[1..] == second;
      assert second[0] == b[1] && second[1..] == third;
    }
  }

  /** What request_read_headers leaves unread of s when it finds the bytes old' in
      its uninitialised buffer; None when it never returns. */
  function DrainHeaders(s: string, old': string): Option<string>
    requires |old'| == MAXBUF
    decreases |s|
  {
    var n, b := ChunkLen(s, ROOM), Filled(old', s, ROOM);
    if IsBlank(b) then Some(s[n..])
    else if s == "" then None
    else
      ChunkLenShape(s, ROOM);
      DrainHeaders(s[n..], b)
  }

  /** At end of file every further call leaves an empty line and the same buffer,
      so a header loop that gets there never returns. */
  lemma EndOfFileIsForever(b: string)
    requires |b| == MAXBUF
    ensures var b' := Filled(b, "", ROOM);
            !IsBlank(b') && Filled(b', "", ROOM) == b' && ChunkLen("", ROOM) == 0
  {
  }

  /** What the loop leaves unread, at its test, of the bytes s that remain. */
  function FromTest(s: string, b: string, atEnd: bool): Option<string>
    requires |b| == MAXBUF
  {
    if IsBlank(b) then Some(s) else if atEnd then None else DrainHeaders(s, b)
  }

  lemma DrainOneLine(s: string, old': string)
    requires |old'| == MAXBUF
    ensures DrainHeaders(s, old') == FromTest(s[ChunkLen(s, ROOM)..], Filled(old', s, ROOM), s == "")
    ensures s != "" ==> ChunkLen(s, ROOM) > 0
  {
    ChunkLenShape(s, ROOM);
  }

  /** request_read_headers; returned is false when the source loops for ever. */
  method ReadHeaders(fd: ByteStream, buf: array<char>) returns (returned: bool)
    requires fd.Valid() && buf.Length == MAXBUF
    modifies fd, buf
    ensures fd.Valid()
    ensures returned <==> DrainHeaders(old(fd.Rest()), old(buf[..])).Some?
    ensures returned ==> DrainHeaders(old(fd.Rest()), old(buf[..])) == Some(fd.Rest())
  {
    ghost var whole := DrainHeaders(fd.Rest(), buf[..]);
    var atEnd := fd.pos == |fd.data|;
    DrainOneLine(fd.Rest(), buf[..]);
    var n := Readline(fd, buf, MAXBUF);
    while !IsBlank(buf[..])
      invariant fd.Valid()
      invariant whole == FromTest(fd.Rest(), buf[..], atEnd)
      decreases !atEnd, |fd.data| - fd.pos
    {
      if atEnd {
        EndOfFileIsForever(buf[..]);
        return false;
      }
      atEnd := fd.pos == |fd.data|;
      DrainOneLine(fd.Rest(), buf[..]);
      n := Readline(fd, buf, MAXBUF);
    }
    return true;
  }

  // ---- Where the header loop stops ----

  /** The length of the first line of s, newline included. */
  function LineLen(s: string): (n: nat)
    ensures n <= |s| && (s != "" ==> n > 0)
  {
    ChunkLenShape(s, |s|);
    ChunkLen(s, |s|)
  }

  predicate EndsInCrLf(line: string) {
    |line| >= 2 && line[|line| - 2] == '\r' && line[|line| - 1] == LF
  }

  /** The lines whose last chunk is a bare CRLF: the blank line, and every line
      whose text fills the buffer exactly a whole number of times. */
  predicate Stops(line: string) {
    EndsInCrLf(line) && |line| % ROOM == 2
  }

  /** What follows the first line of s that stops the header loop. */
  function AfterStop(s: string): Option<string>
    decreases |s|
  {
    if s == "" then None
    else
      var n := LineLen(s);
      if Stops(s[..n]) then Some(s[n..]) else AfterStop(s[n..])
  }

  function LastLineLen(s: string): nat
    decreases |s|
  {
    if s == "" then 0
    else
      var n := LineLen(s);
      if n == |s| then n else LastLineLen(s[n..])
  }

  /** The stream ends in a lone carriage return whose missing newline is still in
      the buffer from the line before, or was there to begin with. */
  predicate Phantom(s: string, old': string)
    requires |old'| == MAXBUF
  {
    if s == "\r" then old'[1] == LF && old'[2] == NUL
    else |s| >= 2 && s[|s| - 1] == '\r' && s[|s| - 2] == LF && LastLineLen(s[..|s| - 1]) % ROOM == 2
  }

  function StopPoint(s: string, old': string): Option<string>
    requires |old'| == MAXBUF
  {
    if AfterStop(s).Some? then AfterStop(s) else if Phantom(s, old') then Some("") else None
  }

  lemma LineLenIs(s: string, n: nat)
    requires n <= |s|
    requires forall i :: 0 <= i < n - 1 ==> s[i] != LF
    requires (n > 0 && s[n - 1] == LF) || n == |s|
    ensures LineLen(s) == n
  {
    ChunkLenIs(s, |s|, n);
  }

  lemma LineLenShape(s: string)
    ensures var n := LineLen(s);
            && (forall i :: 0 <= i < n - 1 ==> s[i] != LF)
            && (n < |s| ==> n > 0 && s[n - 1] == LF)
  {
    ChunkLenShape(s, |s|);
  }

  lemma ModDrop(n: nat)
    requires n >= ROOM
    ensures n % ROOM == (n - ROOM) % ROOM
  {
  }

  lemma ModSmall(n: nat)
    requires n <= ROOM
    ensures n % ROOM == 2 <==> n == 2
  {
  }

  /** A chunk that fills the room without a newline: the rest of the line keeps
      its length modulo the room and its last bytes. */
  lemma StopPointOfFullChunk(s: string, old': string, b: string)
    requires |old'| == |b| == MAXBUF && LineLen(s) > ROOM && b[1] != LF
    ensures StopPoint(s, old') == StopPoint(s[ROOM..], b)
  {
    var n, t := LineLen(s), s[ROOM..];
    LineLenShape(s);
    LineLenIs(t, n - ROOM);
    ModDrop(n);
    assert t[n - ROOM..] == s[n..];
    var line, tail := s[..n], t[..n - ROOM];
    assert tail == line[ROOM..];
    if |tail| == 1 {
      assert !Stops(tail) && !Stops(line);
    } else {
      assert EndsInCrLf(tail) <==> EndsInCrLf(line);
    }
    assert AfterStop(s) == AfterStop(t);
    PhantomOfFullChunk(s, old', b);
  }

  lemma PhantomOfFullChunk(s: string, old': string, b: string)
    requires |old'| == |b| == MAXBUF && LineLen(s) > ROOM && b[1] != LF
    ensures Phantom(s, old') == Phantom(s[ROOM..], b)
  {
    var n, t := LineLen(s), s[ROOM..];
    LineLenShape(s);
    if t == "\r" {
      assert s[|s| - 2] != LF;
    } else if |t| >= 2 && t[|t| - 1] == '\r' && t[|t| - 2] == LF {
      var u, v := s[..|s| - 1], t[..|t| - 1];
      assert v == u[ROOM..];
      assert n <= |u| && s[n - 1] == LF;
      LineLenIs(u, n);
      LineLenIs(v, n - ROOM);
      ModDrop(n);
      assert v[n - ROOM..] == u[n..];
    }
  }

  /** A chunk that is a whole line and not a blank one. */
  lemma StopPointOfLine(s: string, old': string, b: string)
    requires |old'| == |b| == MAXBUF && s != "" && LineLen(s) <= ROOM && s[LineLen(s) - 1] == LF
    requires !Stops(s[..LineLen(s)])
    requires b[1] == LF && b[2] == NUL <==> LineLen(s) == 2
    ensures StopPoint(s, old') == StopPoint(s[LineLen(s)..], b)
  {
    var n := LineLen(s);
    var t := s[n..];
    ModSmall(n);
    LineLenShape(s);
    if t == "\r" {
      var u := s[..|s| - 1];
      LineLenIs(u, n);
    } else if |t| >= 2 && t[|t| - 1] == '\r' && t[|t| - 2] == LF {
      var u, v := s[..|s| - 1], t[..|t| - 1];
      LineLenIs(u, n);
      assert v == u[n..];
    }
  }

  lemma StopPointAtEnd(s: string, old': string)
    requires |old'| == MAXBUF && |s| != 1 && (forall i :: 0 <= i < |s| ==> s[i] != LF)
    ensures StopPoint(s, old') == None
  {
    if s != "" {
      LineLenIs(s, |s|);
      assert s[..|s|] == s && s[|s|..] == "";
      assert !EndsInCrLf(s) && AfterStop("") == None;
    }
  }

  /** One readline call, when it reads a whole line of n bytes: the buffer's first
      three bytes tell exactly whether the line was blank. */
  lemma LineInBuffer(s: string, old': string)
    requires |old'| == MAXBUF && s != "" && LineLen(s) <= ROOM && s[LineLen(s) - 1] == LF
    ensures var n, b := LineLen(s), Filled(old', s, ROOM);
            && ChunkLen(s, ROOM) == n
            && (IsBlank(b) <==> s[..n] == "\r\n")
            && (IsBlank(b) <==> Stops(s[..n]))
            && (b[1] == LF && b[2] == NUL <==> n == 2)
  {
    var n, b := LineLen(s), Filled(old', s, ROOM);
    LineLenShape(s);
    ChunkLenIs(s, ROOM, n);
    ModSmall(n);
    BlankBytes(b);
    assert !Unterminated(s, ROOM);
    assert b[n] == NUL && forall i :: 0 <= i < n ==> b[i] == s[i];
    if n == 2 {
      assert s[..n] == [s[0], LF];
    }
  }

  lemma PartialLineInBuffer(s: string, old': string)
    requires |old'| == MAXBUF && |s| > 1 && ChunkLen(s, ROOM) > 1
    requires forall i :: 0 <= i < ChunkLen(s, ROOM) ==> s[i] != LF
    ensures var b := Filled(old', s, ROOM); !IsBlank(b) && b[1] != LF
  {
    var b := Filled(old', s, ROOM);
    assert b[1] == s[1];
    BlankBytes(b);
  }

  lemma LoneByteInBuffer(s: string, old': string)
    requires |old'| == MAXBUF && |s| == 1 && s[0] != LF
    ensures ChunkLen(s, ROOM) == 1
    ensures IsBlank(Filled(old', s, ROOM)) <==> Phantom(s, old')
    ensures StopPoint(s, old') == if Phantom(s, old') then Some("") else None
  {
    ChunkLenIs(s, ROOM, 1);
    BlankBytes(Filled(old', s, ROOM));
    LineLenIs(s, 1);
    assert s[1..] == "" && AfterStop("") == None && !EndsInCrLf(s[..1]);
  }

  /** Exactly where request_read_headers stops, for every byte stream and every
      content of its uninitialised buffer. */
  lemma {:induction false} HeaderLoopStops(s: string, old': string)
    requires |old'| == MAXBUF
    ensures DrainHeaders(s, old') == StopPoint(s, old')
    decreases |s|
  {
    var b := Filled(old', s, ROOM);
    if s == "" {
      EndOfFileIsForever(old');
    } else if LineLen(s) <= ROOM && s[LineLen(s) - 1] == LF {
      LineInBuffer(s, old');
      if !IsBlank(b) {
        StopPointOfLine(s, old', b);
        HeaderLoopStops(s[LineLen(s)..], b);
      }
    } else {
      LineLenShape(s);
      var n := if LineLen(s) > ROOM then ROOM else |s|;
      ChunkLenIs(s, ROOM, n);
      if |s| == 1 {
        LoneByteInBuffer(s, old');
        assert s[1..] == "" && DrainHeaders("", b) == None;
      } else {
        PartialLineInBuffer(s, old');
        HeaderLoopStops(s[n..], b);
        if LineLen(s) > ROOM {
          StopPointOfFullChunk(s, old', b);
        } else {
          StopPointAtEnd(s, old');
          assert s[n..] == "" && AfterStop("") == None && !Phantom("", b);
        }
      }
    }
  }

  // ---- Against the end of the header section ----

  /** What follows the first blank line of s. */
  function AfterBlankLine(s: string): Option<string>
    decreases |s|
  {
    if s == "" then None
    else
      var n := LineLen(s);
      if s[..n] == "\r\n" then Some(s[n..]) else AfterBlankLine(s[n..])
  }

  /** Some line before the blank one is taken for it. */
  predicate Mistaken(s: string)
    decreases |s|
  {
    s != "" &&
    var n := LineLen(s);
    s[..n] != "\r\n" && (Stops(s[..n]) || Mistaken(s[n..]))
  }

  lemma {:induction false} BlankLineIsSuffix(s: string)
    ensures AfterBlankLine(s).Some? ==> |AfterBlankLine(s).value| < |s|
    decreases |s|
  {
    if s != "" && s[..LineLen(s)] != "\r\n" {
      BlankLineIsSuffix(s[LineLen(s)..]);
    }
  }

  /** The header loop leaves exactly what follows the blank line if and only if no
      earlier line ends in CRLF with a length of 2 modulo 8191. */
  lemma {:induction false} DrainsToBlankLineIff(s: string, old': string)
    requires |old'| == MAXBUF && AfterBlankLine(s).Some?
    ensures DrainHeaders(s, old') == AfterBlankLine(s) <==> !Mistaken(s)
  {
    HeaderLoopStops(s, old');
    StopOrBlank(s);
  }

  lemma {:induction false} StopOrBlank(s: string)
    requires AfterBlankLine(s).Some?
    ensures AfterStop(s).Some?
    ensures AfterStop(s) == AfterBlankLine(s) <==> !Mistaken(s)
    decreases |s|
  {
    var n := LineLen(s);
    var line := s[..n];
    if line != "\r\n" {
      BlankLineIsSuffix(s[n..]);
      if !Stops(line) {
        StopOrBlank(s[n..]);
      }
    }
  }

  /** A header line of 8191 characters before its CRLF ends the header section. */
  lemma LongHeaderLineEndsTheHeaders(line: string, rest: string, old': string)
    requires |line| == ROOM && LF !in line && |old'| == MAXBUF
    ensures DrainHeaders(line + "\r\n" + rest, old') == Some(rest)
  {
    LongLineStops(line, rest);
    HeaderLoopStops(line + "\r\n" + rest, old');
  }

  lemma LongLineStops(line: string, rest: string)
    requires |line| == ROOM && LF !in line
    ensures AfterStop(line + "\r\n" + rest) == Some(rest)
  {
    var s := line + "\r\n" + rest;
    LineLenIs(s, ROOM + 2);
    assert s[..ROOM + 2] == line + "\r\n" && s[ROOM + 2..] == rest;
    assert Stops(line + "\r\n");
  }

  /** A lone carriage return at end of file is taken for a blank line when the line
      before it held one character. */
  lemma LoneReturnEndsTheHeaders(c: char, old': string)
    requires c != LF && c != '\r' && |old'| == MAXBUF
    ensures DrainHeaders([c, LF, '\r'], old') == Some("")
    ensures AfterBlankLine([c, LF, '\r']) == None
  {
    var s := [c, LF, '\r'];
    LineLenIs(s, 2);
    LineLenIs(s[2..], 1);
    assert s[2..] == "\r" && s[2..][1..] == "";
    assert s[..2] == [c, LF] && s[2..][..1] == "\r";
    LineLenIs([c, LF], 2);
    assert LastLineLen([c, LF]) == 2 && s[..|s| - 1] == [c, LF];
    assert AfterStop("") == None && AfterBlankLine("") == None;
    assert AfterStop("\r") == None && AfterBlankLine("\r") == None;
    HeaderLoopStops(s, old');
  }
}
