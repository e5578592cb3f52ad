/** `handleRequest`: route a request by its method and path to one of three
    responses, reading the file `"static" + path` from a file system given as
    a map from path to content; and `handleClient`'s data path from the bytes
    a client sent to the response sent back. */
module Router {
  import opened Text
  import opened Request
  import opened Response

  /** Directory the served paths are relative to; the path is appended as is. */
  const StaticRoot := "static"
  const RootPath := "/"
  const DefaultPage := "/index.html"

  const NotFoundBody := "<h1>404 Not Found</h1>"
  const MethodNotAllowedBody := "<h1>405 Method Not Allowed</h1>"

  /** The file a GET for `path` opens: `/` is the default page, every other path
      is appended to `static` without normalisation (`..` is kept). */
  function FileKey(path: string): (key: string)
    ensures path != RootPath ==> key == StaticRoot + path
    ensures path == RootPath ==> key == StaticRoot + DefaultPage
  {
    StaticRoot + (if path == RootPath then DefaultPage else path)
  }

  /** The status and body `handleRequest` answers with. */
  datatype Answer = Answer(status: string, body: string)

  /** The decision `handleRequest` makes for a request line: 405 unless the method
      is GET, then 200 with the file's content if the file opens, 404 otherwise. */
  function Route(line: RequestLine, files: map<string, string>): (a: Answer)
    ensures a.status == StatusOk || a.status == StatusNotFound || a.status == StatusMethodNotAllowed
    ensures a.status == StatusOk <==> line.verb == "GET" && FileKey(line.path) in files
    ensures All(a.status, NotCR)
  {
    StatusesFreeOfCR();
    if line.verb == "GET" then
      var key := FileKey(line.path);
      if key in files then Answer(StatusOk, files[key])
      else Answer(StatusNotFound, NotFoundBody)
    else Answer(StatusMethodNotAllowed, MethodNotAllowedBody)
  }

  /** `handleRequest(request)` against the file system `files`: the response
      carries the routed status and body, and declares the body's length. */
  function HandleRequest(request: string, files: map<string, string>): (response: string)
    ensures var a := Route(ParseRequestLine(request), files);
            ParseResponse(response) == Some(Parsed(a.status, |a.body|, a.body))
  {
    var a := Route(ParseRequestLine(request), files);
    ParseGenerated(a.body, a.status);
    GenerateHttpResponse(a.body, a.status)
  }

  /** Any method other than GET, including a missing one, is refused with 405,
      whatever the path and the files. */
  lemma {:induction false} OtherMethodsRefused(request: string, files: map<string, string>)
    requires ParseRequestLine(request).verb != "GET"
    ensures ParseResponse(HandleRequest(request, files))
         == Some(Parsed(StatusMethodNotAllowed, |MethodNotAllowedBody|, MethodNotAllowedBody))
  {
  }

  /** A GET for a file that exists is answered 200 with the file's content as body
      and its length as Content-Length. */
  lemma {:induction false} ExistingFileServed(request: string, files: map<string, string>)
    requires ParseRequestLine(request).verb == "GET"
    requires FileKey(ParseRequestLine(request).path) in files
    ensures var content := files[FileKey(ParseRequestLine(request).path)];
            ParseResponse(HandleRequest(request, files)) == Some(Parsed(StatusOk, |content|, content))
  {
  }

  /** A GET for a file that does not exist is answered 404 with the fixed body. */
  lemma {:induction false} MissingFileNotFound(request: string, files: map<string, string>)
    requires ParseRequestLine(request).verb == "GET"
    requires FileKey(ParseRequestLine(request).path) !in files
    ensures ParseResponse(HandleRequest(request, files))
         == Some(Parsed(StatusNotFound, |NotFoundBody|, NotFoundBody))
  {
  }

  /** The status is 200 exactly when the method is GET and the file exists. */
  lemma {:induction false} OkIffGetOfExistingFile(request: string, files: map<string, string>)
    ensures ParseResponse(HandleRequest(request, files)).value.status == StatusOk
        <==> ParseRequestLine(request).verb == "GET" && FileKey(ParseRequestLine(request).path) in files
  {
    var line := ParseRequestLine(request);
    if line.verb != "GET" {
      OtherMethodsRefused(request, files);
    } else if FileKey(line.path) in files {
      ExistingFileServed(request, files);
    } else {
      MissingFileNotFound(request, files);
    }
  }

  /** The response depends on the request only through the routing decision. */
  lemma SameRouteSameResponse(r1: string, r2: string, files: map<string, string>)
    requires Route(ParseRequestLine(r1), files) == Route(ParseRequestLine(r2), files)
    ensures HandleRequest(r1, files) == HandleRequest(r2, files)
  {
  }

  /** A GET of `/` is routed as a GET of `/index.html`, for every file system and protocol. */
  lemma RouteRootIsIndex(root: RequestLine, index: RequestLine, files: map<string, string>)
    requires root.verb == "GET" && root.path == RootPath
    requires index.verb == "GET" && index.path == DefaultPage
    ensures Route(root, files) == Route(index, files)
  {
    assert FileKey(root.path) == FileKey(index.path);
  }

  /** `GET /` and `GET /index.html` get the same response for every file system,
      whatever else the two requests hold. */
  lemma {:induction false} RootIsIndex(root: string, index: string, files: map<string, string>)
    requires ParseRequestLine(root).verb == "GET" && ParseRequestLine(root).path == RootPath
    requires ParseRequestLine(index).verb == "GET" && ParseRequestLine(index).path == DefaultPage
    ensures HandleRequest(root, files) == HandleRequest(index, files)
  {
    RouteRootIsIndex(ParseRequestLine(root), ParseRequestLine(index), files);
    SameRouteSameResponse(root, index, files);
  }

  /** A GET request line for `path`, followed by text that starts with white space,
      parses to GET, `path` and the protocol. */
  lemma {:induction false} GetLineParses(path: string, protocol: string, tail: string)
    requires path != [] && All(path, NotSpace)
    requires protocol != [] && All(protocol, NotSpace)
    requires tail == [] || IsSpace(tail[0])
    ensures ParseRequestLine("GET" + " " + path + " " + protocol + tail) == RequestLine("GET", path, protocol)
  {
    var verb, sep: string := "GET", " ";
    assert sep[0] == ' ';
    assert All(verb, NotSpace);
    assert [] + verb + sep + path + sep + protocol + tail == verb + sep + path + sep + protocol + tail;
    ParseFormatted([], verb, sep, path, sep, protocol, tail);
  }

  /** The same for the request lines themselves: `GET / <protocol>` and
      `GET /index.html <protocol>`, followed by any text that starts with white space. */
  lemma {:induction false} RootLineIsIndexLine(protocol: string, tail: string, files: map<string, string>)
    requires protocol != [] && All(protocol, NotSpace)
    requires tail == [] || IsSpace(tail[0])
    ensures HandleRequest("GET" + " " + RootPath + " " + protocol + tail, files)
         == HandleRequest("GET" + " " + DefaultPage + " " + protocol + tail, files)
  {
    assert All(RootPath, NotSpace) && All(DefaultPage, NotSpace);
    GetLineParses(RootPath, protocol, tail);
    GetLineParses(DefaultPage, protocol, tail);
    RootIsIndex("GET" + " " + RootPath + " " + protocol + tail, "GET" + " " + DefaultPage + " " + protocol + tail, files);
  }

  /** `handleClient`'s data path: what was read becomes the request, and the
      response to it is what is sent. */
  function HandleClient(incoming: seq<byte>, files: map<string, string>): (response: string)
    ensures var a := Route(ParseRequestLine(ReadRequest(incoming)), files);
            ParseResponse(response) == Some(Parsed(a.status, |a.body|, a.body))
  {
    HandleRequest(ReadRequest(incoming), files)
  }

  /** Only the first 2047 bytes a client sends can affect the response. */
  lemma {:induction false} BytesBeyondBufferIgnored(incoming: seq<byte>, more: seq<byte>, files: map<string, string>)
    requires |incoming| >= MaxRead
    ensures HandleClient(incoming + more, files) == HandleClient(incoming, files)
  {
    var n := MaxRead;
    assert (incoming + more)[..n] == incoming[..n];
    assert FillBuffer(incoming + more) == FillBuffer(incoming);
    assert ReadRequest(incoming + more) == ReadRequest(incoming);
  }
}
