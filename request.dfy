/** What a worker makes of the bytes a client sent: the NUL-terminated text
    left in the 2048-byte read buffer, and its first three whitespace-separated
    tokens (verb, path, protocol). */
module Request {
  import opened Text

  newtype byte = x: int | 0 <= x < 256

  /** Size of the zero-initialised receive buffer. */
  const BufferSize: nat := 2048
  /** `read` is asked for one byte less than the buffer, so a NUL always stays at the end. */
  const MaxRead: nat := BufferSize - 1

  /** One request character per byte. */
  function ToChar(b: byte): char {
    (b as int) as char
  }

  predicate NoNul(s: string) {
    forall i :: 0 <= i < |s| ==> s[i] != '\0'
  }

  /** The buffer after `read`: the first (at most 2047) bytes the peer sent, then zeros. */
  function FillBuffer(incoming: seq<byte>): (buf: seq<byte>)
    ensures |buf| == BufferSize
    ensures buf[MaxRead] == 0
    ensures forall i :: 0 <= i < |incoming| && i < MaxRead ==> buf[i] == incoming[i]
    ensures forall i :: |incoming| <= i < BufferSize ==> buf[i] == 0
  {
    var n := if |incoming| < MaxRead then |incoming| else MaxRead;
    incoming[..n] + seq(BufferSize - n, _ => 0 as byte)
  }

  /** `std::string(const char*)`: the characters before the first NUL byte. */
  function CString(buf: seq<byte>): (s: string)
    requires 0 in buf
    ensures |s| < |buf| && buf[|s|] == 0
    ensures forall i :: 0 <= i < |s| ==> buf[i] != 0 && s[i] == ToChar(buf[i])
  {
    if buf[0] == 0 then [] else [ToChar(buf[0])] + CString(buf[1..])
  }

  /** The request text `handleClient` passes on: at most 2047 characters, no NUL,
      a prefix of what was sent, cut at the first NUL or at 2047 bytes. */
  function ReadRequest(incoming: seq<byte>): (request: string)
    ensures |request| <= MaxRead && |request| <= |incoming|
    ensures NoNul(request)
    ensures forall i :: 0 <= i < |request| ==> request[i] == ToChar(incoming[i])
    ensures |request| < |incoming| && |request| < MaxRead ==> incoming[|request|] == 0
  {
    var buf := FillBuffer(incoming);
    var s := CString(buf);
    assert |incoming| < BufferSize ==> buf[|incoming|] == 0;
    assert forall i :: 0 <= i < |s| ==> s[i] != '\0' by {
      forall i | 0 <= i < |s| ensures s[i] != '\0' {
        assert buf[i] != 0;
      }
    }
    s
  }

  /** What `isspace` accepts in the C locale: space, tab, line feed, vertical tab, form feed, carriage return. */
  predicate IsSpace(c: char) {
    c == ' ' || '\t' <= c <= '\r'
  }

  predicate NotSpace(c: char) {
    !IsSpace(c)
  }

  /** What one `>>` consumes: the white space it skips, the word it stores, and
      what is left in the stream. */
  datatype Extraction = Extraction(skipped: string, token: string, rest: string)

  /** `stream >> word` on a `std::string`: skip leading white space, then take the
      longest run of non-white-space characters; at the end of the input the word is empty. */
  function Extract(s: string): (e: Extraction)
    ensures s == e.skipped + e.token + e.rest
    ensures All(e.skipped, IsSpace)
    ensures All(e.token, NotSpace)
    ensures e.rest == [] || IsSpace(e.rest[0])
    ensures e.token == [] ==> e.rest == []
  {
    var i := SpanLength(s, IsSpace);
    var t := s[i..];
    var n := SpanLength(t, NotSpace);
    PrefixAll(s, i, IsSpace);
    PrefixAll(t, n, NotSpace);
    SplitAt(s, i);
    SplitAt(t, n);
    Associate(s[..i], t[..n], t[n..]);
    assert i < |s| ==> t[0] == s[i];
    assert n < |t| ==> t[n..][0] == t[n];
    Extraction(s[..i], t[..n], t[n..])
  }

  lemma PrefixAll(s: string, n: nat, keep: char -> bool)
    requires n <= |s|
    requires forall k :: 0 <= k < n ==> keep(s[k])
    ensures All(s[..n], keep)
  {
    assert forall k :: 0 <= k < n ==> s[..n][k] == s[k];
  }

  lemma Associate(a: string, b: string, c: string)
    ensures a + (b + c) == a + b + c
  {
  }

  lemma SplitAt(s: string, n: nat)
    requires n <= |s|
    ensures s == s[..n] + s[n..]
  {
  }

  /** The result of `Extract` is the only split of `s` into leading white space,
      a maximal word and the remainder. */
  lemma {:induction false} ExtractUnique(s: string, space: string, token: string, rest: string)
    requires s == space + token + rest
    requires All(space, IsSpace) && All(token, NotSpace)
    requires rest == [] || IsSpace(rest[0])
    requires token == [] ==> rest == []
    ensures Extract(s) == Extraction(space, token, rest)
  {
    assert s == space + (token + rest);
    assert token != [] ==> (token + rest)[0] == token[0];
    SpanLengthOf(space, token + rest, IsSpace);
    assert s[|space|..] == token + rest;
    SpanLengthOf(token, rest, NotSpace);
    assert s[..|space|] == space;
    assert s[|space|..|space| + |token|] == token;
    assert s[|space| + |token|..] == rest;
  }

  datatype RequestLine = RequestLine(verb: string, path: string, protocol: string)

  /** `requestStream >> method >> path >> protocol`; the first word is kept as `verb`. */
  function ParseRequestLine(request: string): (line: RequestLine)
    ensures All(line.verb, NotSpace) && All(line.path, NotSpace) && All(line.protocol, NotSpace)
    ensures line.verb == [] ==> line.path == []
    ensures line.path == [] ==> line.protocol == []
    ensures |line.verb| + |line.path| + |line.protocol| <= |request|
  {
    var m := Extract(request);
    var p := Extract(m.rest);
    var v := Extract(p.rest);
    RequestLine(m.token, p.token, v.token)
  }

  /** Three words separated by white space parse back to those words, whatever
      follows the third one after a white-space character. */
  lemma {:induction false} ParseFormatted(lead: string, verb: string, sep1: string, path: string,
                                          sep2: string, protocol: string, tail: string)
    requires All(lead, IsSpace) && All(sep1, IsSpace) && All(sep2, IsSpace)
    requires sep1 != [] && sep2 != []
    requires verb != [] && path != [] && protocol != []
    requires All(verb, NotSpace) && All(path, NotSpace) && All(protocol, NotSpace)
    requires tail == [] || IsSpace(tail[0])
    ensures ParseRequestLine(lead + verb + sep1 + path + sep2 + protocol + tail)
         == RequestLine(verb, path, protocol)
  {
    var r2 := sep2 + protocol + tail;
    ExtractUnique(r2, sep2, protocol, tail);
    var r1 := sep1 + path + r2;
    assert r1[0] == sep1[0];
    ExtractUnique(r1, sep1, path, r2);
    Regroup(lead, verb, sep1, path, sep2, protocol, tail);
    ExtractUnique(lead + verb + r1, lead, verb, r1);
  }

  lemma Regroup(lead: string, verb: string, sep1: string, path: string,
                sep2: string, protocol: string, tail: string)
    ensures lead + verb + sep1 + path + sep2 + protocol + tail
         == lead + verb + (sep1 + path + (sep2 + protocol + tail))
  {
    var r2 := sep2 + protocol + tail;
    calc {
      lead + verb + sep1 + path + sep2 + protocol + tail;
      { assert (lead + verb + sep1 + path) + sep2 + protocol + tail == (lead + verb + sep1 + path) + r2; }
      lead + verb + sep1 + path + r2;
      { assert lead + verb + sep1 + path + r2 == (lead + verb) + (sep1 + path + r2); }
      lead + verb + (sep1 + path + r2);
    }
  }

  /** Appending text that starts with white space after a word leaves that word unchanged. */
  lemma {:induction false} ExtractAppend(s: string, tail: string)
    requires Extract(s).token != []
    requires tail == [] || IsSpace(tail[0])
    ensures Extract(s + tail) == Extraction(Extract(s).skipped, Extract(s).token, Extract(s).rest + tail)
  {
    var e := Extract(s);
    var rest := e.rest + tail;
    assert s + tail == e.skipped + e.token + rest;
    assert rest == [] || IsSpace(rest[0]) by {
      if e.rest != [] { assert rest[0] == e.rest[0]; }
    }
    ExtractUnique(s + tail, e.skipped, e.token, rest);
  }

  /** Once three words have been read, anything appended after white space is ignored. */
  lemma {:induction false} TailIgnored(request: string, tail: string)
    requires ParseRequestLine(request).protocol != []
    requires tail == [] || IsSpace(tail[0])
    ensures ParseRequestLine(request + tail) == ParseRequestLine(request)
  {
    var m := Extract(request);
    var p := Extract(m.rest);
    ExtractAppend(request, tail);
    ExtractAppend(m.rest, tail);
    ExtractAppend(p.rest, tail);
  }

  /** A request of one word, with white space around it, has an empty path and protocol. */
  lemma {:induction false} OneWord(lead: string, verb: string, tail: string)
    requires All(lead, IsSpace) && All(tail, IsSpace)
    requires verb != [] && All(verb, NotSpace)
    ensures ParseRequestLine(lead + verb + tail) == RequestLine(verb, [], [])
  {
    assert tail != [] ==> IsSpace(tail[0]);
    ExtractUnique(lead + verb + tail, lead, verb, tail);
    ExtractBlank(tail);
    ExtractBlank([]);
  }

  /** A request of two words separated by white space has an empty protocol. */
  lemma {:induction false} TwoWords(lead: string, verb: string, sep: string, path: string, tail: string)
    requires All(lead, IsSpace) && All(sep, IsSpace) && All(tail, IsSpace)
    requires sep != []
    requires verb != [] && path != [] && All(verb, NotSpace) && All(path, NotSpace)
    ensures ParseRequestLine(lead + verb + sep + path + tail) == RequestLine(verb, path, [])
  {
    var r := sep + path + tail;
    assert r[0] == sep[0];
    Regroup5(lead, verb, sep, path, tail);
    ExtractUnique(lead + verb + r, lead, verb, r);
    assert tail != [] ==> IsSpace(tail[0]);
    ExtractUnique(r, sep, path, tail);
    ExtractBlank(tail);
  }

  lemma Regroup5(a: string, b: string, c: string, d: string, e: string)
    ensures a + b + c + d + e == a + b + (c + d + e)
  {
  }

  /** On white space alone, `>>` skips all of it and reads an empty word. */
  lemma {:induction false} ExtractBlank(s: string)
    requires All(s, IsSpace)
    ensures Extract(s) == Extraction(s, [], [])
  {
    assert s == s + [] + [];
    ExtractUnique(s, s, [], []);
  }

  /** Text made only of white space has no words. */
  lemma {:induction false} BlankHasNoWords(request: string)
    requires All(request, IsSpace)
    ensures ParseRequestLine(request) == RequestLine([], [], [])
  {
    ExtractBlank(request);
    ExtractBlank([]);
  }
}
