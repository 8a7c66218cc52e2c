# Reverse proxy server — a Dafny model

A model of the reverse proxy in `main.c`. The proxy accepts a client
connection and reads its payload. It then opens a fresh connection to the
configured target host and sends a fixed `GET / HTTP/1.0` request there. What
it sends back to the client is either a synthesized HTML error page or a copy
of its gateway buffer.

Every system call (`socket`, `setsockopt`, `bind`, `listen`, `accept`,
`recv`, `gethostbyname`, `connect`) is represented by its result, given as an
input: `Sockets.Startup` for start-up, `Gateway.Upstream` for one upstream
attempt, `Server.Event` for one iteration of the accept loop. The decisions
the code takes on those results are modelled exactly.

Modules, in dependency order:

- `CStrings`: NUL-terminated strings, `strlen`, the cut `snprintf` makes,
  and a `printf`-family format string used with no arguments.
- `CNumbers`: `%d` formatting, and `atoi` as section 7.22.1.2 of ISO C11
  describes it.
- `ProxyConfig`: `struct Config` and `parse_and_load_config`.
- `Sockets`: `create_socket`, `bind_and_listen_socket`, and the sentinel
  chain `main` builds from them.
- `ErrorPages`: `default_error_response`. Its status texts are the reason
  phrases of sections 15.6.1, 15.6.3 and 15.6.5 of RFC 9110.
- `Gateway`: the upstream request text and `get_gateway_response`.
- `Responses`: `build_response`.
- `Server`: `serve_connections` over a finite list of events, and `main`.

A model `string` stands for a C `char` buffer: each `char` of it is one C
byte, text is never decoded, and every length is a byte count.

What the code does is modelled even where it departs from its evident intent.
The constants at `main.c:49-51` name 0 = OK, 1 = BAD, 2 = TIMEOUT, but
`main.c:163`, `main.c:225` and `main.c:236` write them the other way round:

- a successful `recv` (even one of 0 bytes) leaves 1, so the client gets
  "502 Bad Gateway";
- a `recv` error other than EAGAIN/EWOULDBLOCK leaves 2, so the client gets
  "504 Gateway Timeout";
- a resolve failure, a connect failure or a genuine receive timeout leaves 0.
  That is the OK branch, which relays the gateway buffer, never written in
  these cases.

The bytes the upstream sends are therefore never passed on. Three more
oddities of the code are modelled as written:

- `serve_connections` allocates 2·N bytes for the response
  (`main.c:312`), for N = MEMORY_CONNECTION_BUFFER, but every branch cuts
  the response to N - 1 characters (`main.c:67`, `main.c:263`).
- A failed `setsockopt` returns 1 (`main.c:111`), which `main` then binds
  and serves as if it were a descriptor.
- The loader takes any `argv[1]` as the host (`main.c:349`), and the
  `sprintf` at `main.c:191` has no bound. With the default port 3000, a host
  of 892 bytes or more overflows `request[1024]`
  (`Gateway.DefaultPortOverflow`). The model requires the request to fit,
  since C leaves the overflow undefined.

The upstream request ends its lines with a bare LF, not the CRLF that
section 2.2 of RFC 9112 asks for. The model keeps the LF.

## Model

| member | source | states |
|---|---|---|
| CStrings.PrefixBefore | main.c:213 | The C string a buffer holds: a prefix of the buffer with no NUL, followed by the NUL when it is shorter; `strlen` is its length |
| CStrings.PrefixBeforeAppend | main.c:213 | The C string of `text + NUL + anything` is `text`, so `strlen(request)` measures exactly the formatted request |
| CStrings.SnprintfCut | main.c:67-75 | `snprintf` with limit n keeps a prefix of the full output of length min(len, n - 1); an output shorter than n is kept whole |
| CStrings.FormatNoArgs | main.c:263-264 | A buffer used as a format with no arguments gives a C string shorter than the buffer; `%%` gives `%`; any other conversion, or a missing NUL, is undefined (None) |
| CStrings.FormatPlain | main.c:263-264 | A format with no `%` before its NUL prints exactly its C string |
| CStrings.FormatStrayPercent | main.c:263-264 | A `%` followed by anything but `%` makes the copy undefined |
| CNumbers.Atoi | main.c:352 | The definition of `atoi`: skip white space, an optional sign, then decimal digits; a negative result comes only from a minus sign. Its round trip is AtoiDecimal, its no-digit case AtoiNoDigits |
| CNumbers.Decimal | main.c:191 | `%d` output: a minus sign exactly for negative values, digits after it |
| CNumbers.AtoiNoDigits | main.c:352 | `atoi` of text without any digit is 0 |
| CNumbers.AtoiDecimal | main.c:352 | `atoi` reads back the `%d` text of any integer, whatever non-digit text follows it |
| CNumbers.DecimalOfIntLength | main.c:191 | The `%d` text of a C `int` has at most 11 characters |
| ProxyConfig.ParseAndLoadConfig | main.c:334-370 | Without arguments the configuration is the defaults (32, 8081, 1, 2, 1024, 0, 3000, "localhost", 1); argv[1] sets the host, `atoi(argv[2])` the port, and verbose is 1 exactly when argv[3] is "--verbose"; no other field changes |
| Sockets.CreateSocket | main.c:93-121 | -1 exactly when `socket()` fails; 1 when `setsockopt` fails on a requested option; otherwise the new descriptor |
| Sockets.BindAndListenSocket | main.c:123-159 | A negative descriptor is passed through; otherwise -1 when `bind` or `listen` fails, else the descriptor |
| Sockets.ListeningFd | main.c:381 | The descriptor `main` serves is negative exactly when `socket`, `bind` or `listen` fails; a failed `setsockopt` yields descriptor 1 |
| ErrorPages.ErrorPage | main.c:67-75 | The definition of the full page F the format expands to: 131 fixed characters, the status three times and the version; it begins with `HTTP/1.1 <status>`. DefaultErrorResponse, StatusLineOfErrorPage and ErrorPageIsCString carry its properties |
| ErrorPages.DefaultErrorResponse | main.c:59-76 | The response is the first min(\|F\|, N - 1) characters of the full page F, for N = MEMORY_CONNECTION_BUFFER |
| ErrorPages.ErrorPageIsCString | main.c:67-75 | The page holds no NUL when its status holds none |
| ErrorPages.ErrorResponsesAreCStrings | main.c:251-268 | The 502, 504 and 500 responses are C strings, so `strlen` covers all of each |
| ErrorPages.StatusLineOfErrorPage | main.c:68 | An uncut page begins with the status line `HTTP/1.1 <status>`, ended by CR |
| ErrorPages.ErrorPagesComplete | main.c:67 | With the 1024-character buffer the loader sets, none of the three pages is cut |
| Gateway.UpstreamRequest | main.c:188-196 | The definition of the request: 127 fixed characters plus the host and the port suffix. RequestFitsIff, HostLine, RequestHasNoCarriageReturn and RequestIsCString carry its properties |
| Gateway.DefaultPortOverflow | main.c:191 | With port 3000 the request fits `request[1024]` exactly when the host has fewer than 892 bytes |
| Gateway.PortSuffix | main.c:189-196 | The Host header's port suffix consists only of `:`, `-` and digits |
| Gateway.RequestFitsIff | main.c:176-196 | The request fits the 1024-character array exactly when host and port suffix leave room for the 127 fixed characters; any host of up to 884 characters fits with any `int` port |
| Gateway.RequestHasNoCarriageReturn | main.c:188-196 | The request holds no CR: its lines end in bare LF |
| Gateway.RequestIsCString | main.c:188-213 | The request holds no NUL when the host holds none |
| Gateway.HostLine | main.c:189-196 | The second line of the request is `Host: <host>`, followed by `:<port>` exactly when the port is not 80 |
| Gateway.GatewayAnswered | main.c:163-238 | The status left is 1 exactly when `recv` succeeded, 2 exactly when it failed with an errno other than EAGAIN/EWOULDBLOCK, and 0 exactly after a resolve failure, a connect failure or EAGAIN |
| Gateway.Sprintf | main.c:189-196 | The text is written to the array, then its NUL; the rest of the array is unchanged |
| Gateway.GetGatewayResponse | main.c:161-239 | Leaves the status above; returns 0 exactly when it leaves 1; writes exactly the request upstream when connected, and nothing otherwise |
| Responses.CopyGatewayBuffer | main.c:263-264 | A defined copy is a C string shorter than MEMORY_CONNECTION_BUFFER |
| Responses.CopyPlainBuffer | main.c:263-264 | A buffer with no `%` before its NUL is relayed as its C string, cut to N - 1 characters |
| Responses.Dispatch | main.c:247-268 | 1 gives the 502 page, 2 the 504 page, 0 the copy of the gateway buffer, each returning 0; any other value gives the 500 page and -1; every response is a C string shorter than N |
| Responses.EndToEnd | main.c:163-266 | An upstream that answers gives the 502 page, a non-EAGAIN receive error the 504 page, and a resolve failure, connect failure or timeout the copy of the unread buffer; the 500 branch is never taken |
| Responses.UnreadBufferRelayed | main.c:246-264 | When the host does not resolve, the C string of whatever the unread buffer holds (with no `%`) is sent to the client, cut to N - 1 |
| Responses.BuildResponse | main.c:241-269 | The result is the dispatch on the status the gateway left; it always returns 0, with the end-to-end mapping above |
| Server.Step | main.c:291-324 | The definition of one iteration: one action after a failed accept, five with a payload, three without one; an accepted descriptor is the first action and is closed by the last. StepKinds carries its shape |
| Server.ServeTrace | main.c:281-331 | The definition of a run, iteration after iteration: one action per event, two more per accepted connection and two more per payload. ServeConnectionCounts, ServeResponseCounts, ClosedOncePerAccept and ServeOrdered carry its properties |
| Server.ServeConnections | main.c:271-332 | A negative server descriptor returns 1 with no action; otherwise the loop produces, event by event, accept-failure, or accept, recv, then (payload only) build and send, then close |
| Server.StepKinds | main.c:291-324 | One iteration is a failed accept alone, accept/recv/build/send/close with a payload, or accept/recv/close without one |
| Server.ServeConnectionCounts | main.c:291-324 | Over a run, accepts, recvs and closes each equal the accepted connections, and failed accepts the rest |
| Server.ServeResponseCounts | main.c:305-317 | Over a run, `build_response` and `send` each happen exactly once per connection with a payload |
| Server.ClosedOncePerAccept | main.c:291-323 | Each descriptor is closed exactly as often as it is accepted |
| Server.ServeOrdered | main.c:305-323 | An upstream attempt only follows a recv with a payload, and is followed by the send to that client and then its close; a send only follows an upstream attempt |
| Server.SentBounded | main.c:312-315 | Every defined response sent is a C string shorter than N, so it and its NUL fit the 2N allocation and `send` writes all of it |
| Server.ShortHostDefined | main.c:176-196 | A target host of at most 884 bytes keeps every upstream request within its array, on every connection |
| Server.Launch | main.c:381 | `serve_connections(bind_and_listen_socket(create_socket(1)))` exits with 1 exactly when `socket`, `bind` or `listen` fails; otherwise it serves the events |
| Server.Start | main.c:372-382 | `main`: the loaded host, port and verbose flag and the unchanged defaults, as ParseAndLoadConfig states; then exit 1 exactly when `socket`, `bind` or `listen` fails, otherwise the serve trace of that configuration |

## Left out

- System calls and DNS are inputs, not behaviour: `socket`, `setsockopt`, `bind`, `listen`, `accept`, `connect`, `write`, `recv`, `send`, `close`, `gethostbyname`.
- The receive timeout (`SO_RCVTIMEO`, `struct timeval`): only the errno it leaves matters, and there is no clock.
- All `printf` logging, `print_welcome_header`, and the `printf(request)` that uses the request as a format.
- `malloc`/`free`, and the upstream socket, which is never closed.
- `htons` byte order, and the 16-bit truncation of both ports.
- The client payload: it is read but never inspected, so only its byte count is an input.
- The endless `while(1)`: a finite prefix of events is modelled, and `ServeConnections` reports that it is still serving after the last one.
- The Windows branch. `src/config.h` is not part of this model: nothing includes it.
- The gateway buffer's contents are an input, since it is never written on the paths that copy it. The copy is None (undefined) for a `%` conversion other than `%%`, or for a buffer with no NUL.
- Gateway.GetGatewayResponse: requires that the request fit its 1024-character array whenever the host resolves; `sprintf` past the array is undefined in C.
- ProxyConfig.ParseAndLoadConfig: requires `atoi(argv[2])` to be an `int`; `atoi` overflow is undefined in C. Its missing return value is not modelled.
- Server.Start: requires the request for the loaded host and port to fit its array even when no connection reaches a resolving host, where the C code would never format it.
- A `connect` on the -1 from a failed `socket()` is taken to fail (EBADF).
- EAGAIN and EWOULDBLOCK both take their Linux value, 11.
