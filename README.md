# A model of a small multithreaded static-file HTTP server

The server accepts TCP connections on one thread, pushes each accepted socket
onto a shared FIFO `clientQueue`, and lets a fixed pool of worker threads pop
sockets and serve them. Serving a connection reads at most 2047 bytes into a
zeroed 2048-byte buffer. The text up to the first NUL is split into method,
path and protocol. A `GET` is answered with the file `static<path>`, where `/`
stands for `/index.html`. The status is 200 if the file opens and 404
otherwise. Any other method gets 405. The response is a fixed HTTP/1.1 status
line, three header fields (Content-Type, a Content-Length equal to the body's
length in decimal as section 3.3.2 of RFC 7230 asks, and Connection: close),
and the body. Shutdown clears the `isRunning` flag.

The project has five modules:

- `Text`: an option type, the longest-prefix scan and literal matching that
  the next three modules share.
- `Request`:
  - the receive buffer and the C-string conversion (`ReadRequest`);
  - `istream >> std::string` (`Extract`), using the C locale's white space (tab, line feed, vertical tab, form feed, carriage return, space);
  - the three-word split (`ParseRequestLine`).
- `Response`:
  - `generateHttpResponse`;
  - a parser (`ParseResponse`) that reads such a response back, so that the contract can say what a response means rather than how it is concatenated.
- `Router`:
  - `handleRequest` over a file system given as a map from the opened path to the file's content;
  - the data path of `handleClient`, from the bytes read to the response sent.
- `ConnectionQueue`:
  - the shared state (`clientQueue`, `isRunning`);
  - one pure function per atomic step: the acceptor's push, a worker's step through its loop, and the shutdown;
  - executions as arbitrary sequences of those steps;
  - the class `Server`, whose fields are the two shared members and whose methods update them in place, each proved against its step function.

A worker's position in `threadWorker` is explicit:

- `AtGuard`: before `while (isRunning)`;
- `Waiting`: inside `condition.wait`;
- `Serving(socket)`: inside `handleClient`;
- `Exited`.

This is what shows the effect of the outer loop guard. After the flag is cleared, a worker already waiting still pops one queued socket. It then exits at the guard, even if sockets remain queued.

## Model

| member | source | states |
|---|---|---|
| Request.FillBuffer | server.cpp:88-89 | the buffer holds 2048 bytes: the first bytes received (at most 2047), then zeros, so its last byte is always NUL |
| Request.CString | server.cpp:91 | the string stops at the first NUL byte of the buffer and copies every byte before it |
| Request.ReadRequest | server.cpp:88-91 | the request is at most 2047 characters and has no NUL; it is a prefix of what was received, cut at a NUL or at 2047 bytes |
| Request.Extract | server.cpp:101 | one `>>` splits its input into skipped white space, a word with no white space, and a remainder that is empty or starts with white space; a missing word is empty and consumes all input |
| Request.ExtractUnique | server.cpp:101 | any split with those three properties is the one `>>` makes |
| Request.ExtractAppend | server.cpp:101 | appending text that starts with white space after a word changes only the remainder |
| Request.ParseRequestLine | server.cpp:99-101 | method, path and protocol are white-space-free words; a missing word leaves the later ones empty |
| Request.ParseFormatted | server.cpp:99-101 | three words separated by white space, with any leading white space, are read back as method, path and protocol |
| Request.TailIgnored | server.cpp:99-101 | once three words are read, text appended after white space does not change them |
| Request.OneWord | server.cpp:99-101 | a request of one word with only white space around it parses to that word, an empty path and an empty protocol |
| Request.TwoWords | server.cpp:99-101 | a request of two white-space-separated words with only white space after them parses to those words and an empty protocol |
| Request.ExtractBlank | server.cpp:101 | on white space alone, `>>` skips all of it and reads an empty word |
| Request.BlankHasNoWords | server.cpp:99-101 | a request made only of white space has an empty method, path and protocol |
| Response.Decimal | server.cpp:125 | the result is a non-empty string of decimal digits with no leading zero |
| Response.DecimalRoundTrip | server.cpp:125 | reading those digits back gives the length |
| Response.GenerateHttpResponse | server.cpp:121-129 | the response ends with the content |
| Response.ParseGeneratedHeaders | server.cpp:124-127 | the header fields after the status line give the content's length, and the content follows the blank line |
| Response.ParseGenerated | server.cpp:121-129 | parsing a response recovers its status, its body, and a Content-Length equal to the body's length, for any status with no carriage return |
| Response.DeclaredLengthIsBodyLength | server.cpp:125-127 | the declared Content-Length equals the length of the body that follows |
| Response.StatusesFreeOfCR | server.cpp:112-117 | none of the three status texts holds a carriage return, so each is read back whole |
| Router.FileKey | server.cpp:104-108 | the opened file is `static` followed by the path unchanged, with `/` replaced by `/index.html` |
| Router.Route | server.cpp:103-118 | the status is one of the three status texts, and it is 200 OK if and only if the method is GET and the file exists |
| Router.HandleRequest | server.cpp:98-119 | the response parses back to the routed status and body, with Content-Length equal to the body's length |
| Router.OtherMethodsRefused | server.cpp:101-118 | a method other than GET, including a missing one, gives 405 with its fixed body, for any path and files |
| Router.ExistingFileServed | server.cpp:108-112 | a GET of an existing file gives 200 with the file's content as body and its length as Content-Length |
| Router.MissingFileNotFound | server.cpp:113-115 | a GET of a missing file gives 404 with its fixed body |
| Router.OkIffGetOfExistingFile | server.cpp:103-118 | the status is 200 if and only if the method is GET and the file exists |
| Router.SameRouteSameResponse | server.cpp:98-119 | two requests with the same routing decision get byte-identical responses |
| Router.RouteRootIsIndex | server.cpp:104-106 | a GET of `/` is routed like a GET of `/index.html` |
| Router.RootIsIndex | server.cpp:104-106 | `GET /` and `GET /index.html` get identical responses for every file system and protocol |
| Router.GetLineParses | server.cpp:99-101 | `GET <path> <protocol>` followed by white space parses to those three words |
| Router.RootLineIsIndexLine | server.cpp:99-106 | the request texts `GET / P...` and `GET /index.html P...` get identical responses |
| Router.HandleClient | server.cpp:87-92 | the response sent is the routed response for the truncated request text |
| Router.BytesBeyondBufferIgnored | server.cpp:88-91 | bytes after the first 2047 cannot change the response |
| ConnectionQueue.AcceptStep | server.cpp:56-62 | a failed accept leaves the queue unchanged; a socket is appended at the tail with the earlier entries in order; the flag is untouched |
| ConnectionQueue.ShutdownStep | server.cpp:13 | the flag becomes false and the queue is unchanged |
| ConnectionQueue.ShutdownIdempotent | server.cpp:13 | shutting down twice is the same as once |
| ConnectionQueue.WorkerTransition | server.cpp:68-83 | a waiting worker stays blocked if and only if the queue is empty and the flag is set; it pops the front if and only if the queue is non-empty, leaving the tail; at the loop guard it goes on to wait while the flag is set and exits once it is clear; woken with the flag clear and an empty queue it exits; it exits in no other case; no step changes the flag |
| ConnectionQueue.Apply | server.cpp:51-84 | one atomic step of the acceptor, a worker or the shutdown keeps the worker count |
| ConnectionQueue.Run | server.cpp:51-84 | an interleaving of steps keeps the worker count |
| ConnectionQueue.RunningUntilShutdown | server.cpp:3-13 | after any execution the flag is set if and only if it was set before and no shutdown occurred; nothing sets it again |
| ConnectionQueue.ApplyIsFifo | server.cpp:56-80 | one step moves sockets from the queue's front to the served list and appends an accepted one at the tail |
| ConnectionQueue.QueueIsFifo | server.cpp:56-80 | over any execution the served sockets, in order, followed by the queue, are the initial queue followed by the accepted sockets: none lost, duplicated or reordered |
| ConnectionQueue.ApplyAfterShutdown | server.cpp:68-80 | after shutdown, one step never raises a worker's remaining allowance plus what it takes |
| ConnectionQueue.AtMostOneAfterShutdown | server.cpp:68-80 | once the flag is clear, a worker takes at most one more socket, and only if it was already waiting |
| ConnectionQueue.NoExitWhileRunning | server.cpp:68-77 | while the flag stays set, no worker exits |
| ConnectionQueue.ShutdownMayLeaveQueued | server.cpp:68-80 | an execution where a waiting worker takes a socket after shutdown and then exits with another socket still queued |
| ConnectionQueue.Server.constructor | server.cpp:3 | the server starts running with an empty queue |
| ConnectionQueue.Server.Accept | server.cpp:56-63 | the fields change exactly as the accept step says |
| ConnectionQueue.Server.Step | server.cpp:67-85 | the fields and the worker's next position change exactly as the worker step says |
| ConnectionQueue.Server.Shutdown | server.cpp:12-13 | the flag is cleared and the queue is unchanged |

## Left out

- Sockets are not modelled. That covers `socket`, `bind`, `listen`, `accept`, `read`, `send`, `close`, the `exit(EXIT_FAILURE)` paths of `initializeSocket`, and the logging through `perror` and `std::cout`. These are operating-system I/O.
- The single `read` is a parameter. Its result is the byte sequence it returned, and a failing `read` is the same as returning nothing.
- A short `send` is not modelled. The response is what `send` is asked to write.
- Threads, the mutex, the condition variable, `notify_one` / `notify_all` and `join` are replaced by atomic steps in an arbitrary order.
  - The queue operations run under `queueMutex`. The flag is read at the loop guards (server.cpp:51, server.cpp:68) and written in `~Server` (server.cpp:13) without the mutex; the model treats each of those accesses as atomic.
  - A waiting worker may be scheduled whenever its wait predicate holds, and one scheduled while the predicate is false stays waiting. The model therefore cannot show a lost wake-up: because the flag is stored without the mutex, the `notify_all` at server.cpp:14 can fire after a worker has tested its predicate under the lock (server.cpp:73) and before it blocks, and that worker then sleeps for ever, so `join` (server.cpp:18) never returns.
  - The model proves safety only: FIFO order, at most one more socket per worker after shutdown, no exit while running. It does not prove that shutdown wakes every worker or that it finishes.
- Reading a file through `std::ifstream` and `rdbuf` is replaced by a map from the opened path to the file's content.
  - A path in the map's domain is one that opens. A directory also opens and then reads as empty content, which the map can express.
  - Read errors after the open are not modelled.
- The acceptor's loop guard `while (isRunning)` (server.cpp:51) is not modelled. Accept steps may occur at any time, before or after shutdown. This allows more executions than the program has, so every property of executions still holds for the program.
- ConnectionQueue.Apply: a step for a worker index outside the pool changes nothing. Such an event has no counterpart in the program.
- The fixed widths of `int` (socket numbers) and `size_t` (the content length) are not modelled, since no arithmetic is done on them.
- main.cpp is not part of this model. It only fixes the port and the pool size.
- Request bytes become characters with codes 0 to 255, one per byte. File contents and statuses are character strings.
- Response.GenerateHttpResponse: its own contract states only that the response ends with the content. The field-by-field layout is stated by parsing it back (Response.ParseGenerated), not as a literal equation.
- Shutdown does not drain the queue: once the flag is clear each worker takes at most one more socket and leaves at the loop guard, so sockets may stay queued, never served or closed (ConnectionQueue.ShutdownMayLeaveQueued).
- The protocol word is read and ignored; every response starts with `HTTP/1.1`.
