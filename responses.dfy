/** The response builder (`build_response`): one gateway attempt, then a
    four-way dispatch on the status it left. */
module Responses {
  import opened CStrings
  import opened ProxyConfig
  import opened ErrorPages
  import opened Gateway

  /** What `build_response` returns, and the C string it leaves in
      `response`: None where C leaves that text undefined (see FormatNoArgs). */
  datatype BuiltResponse = BuiltResponse(ret: int, response: Option<string>)

  /** `snprintf(response, MEMORY_CONNECTION_BUFFER, gateway_response_buffer)`:
      the gateway buffer is passed as the FORMAT, with no arguments. */
  function CopyGatewayBuffer(config: Config, buffer: string): (r: Option<string>)
    requires config.memoryConnectionBuffer >= 1
    ensures r.Some? ==> IsCString(r.value) && |r.value| < config.memoryConnectionBuffer
  {
    match FormatNoArgs(buffer)
    case None => None
    case Some(text) => Some(SnprintfCut(text, config.memoryConnectionBuffer))
  }

  /** A buffer with no `%` before its NUL is relayed as its C string, cut to
      MEMORY_CONNECTION_BUFFER - 1 characters. */
  lemma CopyPlainBuffer(config: Config, buffer: string)
    requires config.memoryConnectionBuffer >= 1
    requires NUL in buffer && '%' !in PrefixBefore(buffer, NUL)
    ensures CopyGatewayBuffer(config, buffer)
         == Some(SnprintfCut(PrefixBefore(buffer, NUL), config.memoryConnectionBuffer))
  {
    FormatPlain(buffer);
  }

  /** The dispatch of `build_response` on `gateway_answered`. Each of the
      three declared status values returns 0; any other value gives the 500
      page and -1. Every branch formats with limit MEMORY_CONNECTION_BUFFER,
      so a defined response is a C string shorter than that limit, and
      `strlen(response)` is its length. */
  function Dispatch(config: Config, answered: int, buffer: string): (b: BuiltResponse)
    requires WellFormed(config)
    ensures b.ret == 0 <==> answered == GATEWAY_STATUS_OK || answered == GATEWAY_STATUS_BAD
                            || answered == GATEWAY_STATUS_TIMEOUT
    ensures b.ret == 0 || b.ret == -1
    ensures answered == GATEWAY_STATUS_BAD ==> b.response == Some(DefaultErrorResponse(config, BAD_GATEWAY))
    ensures answered == GATEWAY_STATUS_TIMEOUT ==> b.response == Some(DefaultErrorResponse(config, GATEWAY_TIMEOUT))
    ensures answered == GATEWAY_STATUS_OK ==> b.response == CopyGatewayBuffer(config, buffer)
    ensures b.ret == -1 ==> b.response == Some(DefaultErrorResponse(config, INTERNAL_SERVER_ERROR))
    ensures b.response.Some? ==> IsCString(b.response.value) && |b.response.value| < config.memoryConnectionBuffer
  {
    ErrorResponsesAreCStrings(config);
    if answered == GATEWAY_STATUS_BAD then
      BuiltResponse(0, Some(DefaultErrorResponse(config, BAD_GATEWAY)))
    else if answered == GATEWAY_STATUS_TIMEOUT then
      BuiltResponse(0, Some(DefaultErrorResponse(config, GATEWAY_TIMEOUT)))
    else if answered == GATEWAY_STATUS_OK then
      BuiltResponse(0, CopyGatewayBuffer(config, buffer))
    else
      BuiltResponse(-1, Some(DefaultErrorResponse(config, INTERNAL_SERVER_ERROR)))
  }

  /** The response for one upstream attempt, end to end: an upstream that
      answers (even with 0 bytes) yields the 502 page, a receive error other
      than EAGAIN/EWOULDBLOCK the 504 page, and a resolve failure, a connect
      failure or a genuine timeout the copy of the unread gateway buffer.
      The 500 branch is never taken. */
  lemma EndToEnd(config: Config, env: Upstream, buffer: string)
    requires WellFormed(config)
    ensures Dispatch(config, GatewayAnswered(env), buffer).ret == 0
    ensures Reached(env) && env.received >= 0
        ==> Dispatch(config, GatewayAnswered(env), buffer).response == Some(DefaultErrorResponse(config, BAD_GATEWAY))
    ensures Reached(env) && env.received < 0 && !WouldBlock(env.errno)
        ==> Dispatch(config, GatewayAnswered(env), buffer).response == Some(DefaultErrorResponse(config, GATEWAY_TIMEOUT))
    ensures !Reached(env) || (env.received < 0 && WouldBlock(env.errno))
        ==> Dispatch(config, GatewayAnswered(env), buffer).response == CopyGatewayBuffer(config, buffer)
  {
  }

  /** The relayed bytes need not be an HTTP response: when the host does not
      resolve, the unread buffer's C string (if it holds no `%`) is sent,
      whatever it is. */
  lemma UnreadBufferRelayed(config: Config, env: Upstream, buffer: string)
    requires WellFormed(config) && !env.resolves
    requires NUL in buffer && '%' !in PrefixBefore(buffer, NUL)
    ensures Dispatch(config, GatewayAnswered(env), buffer).response
         == Some(SnprintfCut(PrefixBefore(buffer, NUL), config.memoryConnectionBuffer))
  {
    CopyPlainBuffer(config, buffer);
  }

  /** `build_response(response)`. `buffer` stands for the contents of the
      local `gateway_response_buffer` when it is formatted; the initial
      GATEWAY_STATUS_BAD is overwritten by the gateway call before any use. */
  method BuildResponse(config: Config, env: Upstream, buffer: string) returns (ret: int, response: Option<string>)
    requires WellFormed(config)
    requires env.resolves ==> RequestFits(config.targetHost, config.targetPort)
    ensures BuiltResponse(ret, response) == Dispatch(config, GatewayAnswered(env), buffer)
    ensures ret == 0
    ensures Reached(env) && env.received >= 0 ==> response == Some(DefaultErrorResponse(config, BAD_GATEWAY))
    ensures Reached(env) && env.received < 0 && !WouldBlock(env.errno)
        ==> response == Some(DefaultErrorResponse(config, GATEWAY_TIMEOUT))
    ensures !Reached(env) || (env.received < 0 && WouldBlock(env.errno))
        ==> response == CopyGatewayBuffer(config, buffer)
  {
    var answered := GATEWAY_STATUS_BAD;
    var _, status, _ := GetGatewayResponse(config, env);
    answered := status;
    var built := Dispatch(config, answered, buffer);
    EndToEnd(config, env, buffer);
    ret, response := built.ret, built.response;
  }
}
