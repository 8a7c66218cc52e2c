/** The gateway client (`get_gateway_response`): one upstream attempt per
    call, and the status it leaves in `*gateway_answered`. */
module Gateway {
  import opened CStrings
  import opened CNumbers
  import opened ProxyConfig
  import opened Sockets

  /** The status constants as declared. The code below does not use them
      with these meanings: see GatewayAnswered. */
  const GATEWAY_STATUS_OK: int := 0
  const GATEWAY_STATUS_BAD: int := 1
  const GATEWAY_STATUS_TIMEOUT: int := 2

  /** The size of the local `request` array. */
  const TEMP_BUFFER_SIZE: int := 1024

  /** Linux values; EWOULDBLOCK is defined as EAGAIN there. */
  const EAGAIN: int := 11
  const EWOULDBLOCK: int := 11

  /** The fixed User-Agent header value, written in pieces only so that the
      verifier can see its characters. */
  const USER_AGENT: string :=
    "Mozilla/5.0 " + "(Windows " + "NT 10.0; " + "WOW64; " + "rv:48.0) " + "Gecko/" + "20100101 " + "Firefox/48.0"

  /** The results of the upstream system calls of one attempt: `socket()`,
      whether `gethostbyname` resolved the host, whether `connect()`
      succeeded on a valid descriptor, the count `recv()` returned and the
      `errno` it left. */
  datatype Upstream = Upstream(socketFd: int, resolves: bool, connects: bool, received: int, errno: int)

  /** `connect()` succeeds: it needs the socket, and fails (EBADF) on the
      -1 that `create_socket(0)` returns when `socket()` failed. */
  predicate Connected(env: Upstream) {
    CreateSocket(0, env.socketFd, true) >= 0 && env.connects
  }

  /** The attempt gets as far as `recv()`. */
  predicate Reached(env: Upstream) {
    env.resolves && Connected(env)
  }

  predicate WouldBlock(errno: int) {
    errno == EAGAIN || errno == EWOULDBLOCK
  }

  /** The `:port` suffix of the Host header: present unless the port is 80. */
  function PortSuffix(port: int): (r: string)
    ensures forall i :: 0 <= i < |r| ==> r[i] == ':' || r[i] == '-' || IsDigit(r[i])
  {
    if port != 80 then ":" + Decimal(port) else ""
  }

  /** The request the proxy sends upstream. It is built from the target
      host and port alone, and ends its lines with a bare LF. Its length is
      REQUEST_OVERHEAD fixed characters plus the host and the port suffix. */
  function UpstreamRequest(host: string, port: int): (r: string)
    ensures |r| == REQUEST_OVERHEAD + |host| + |PortSuffix(port)|
  {
    "GET / HTTP/1.0\n" + HostHeader(host, port) + "\n" + REQUEST_TAIL
  }

  /** The lines after the Host header, and the empty line ending the head. */
  const REQUEST_TAIL: string := "User-Agent: " + USER_AGENT + "\n" + "Connection: close\n" + "\n"

  function HostHeader(host: string, port: int): string {
    "Host: " + host + PortSuffix(port)
  }

  /** The characters of UpstreamRequest that do not depend on host or port. */
  const REQUEST_OVERHEAD: int := 127

  /** `sprintf` into `request[TEMP_BUFFER_SIZE]` stays in bounds: the text
      and its terminator fit. */
  predicate RequestFits(host: string, port: int) {
    |UpstreamRequest(host, port)| < TEMP_BUFFER_SIZE
  }

  /** The request fits exactly when host and port suffix leave room for the
      fixed text; any host of up to 884 characters fits with any C `int` port. */
  lemma RequestFitsIff(host: string, port: int)
    ensures RequestFits(host, port) <==> |host| + |PortSuffix(port)| < TEMP_BUFFER_SIZE - REQUEST_OVERHEAD
    ensures IsInt(port) && |host| <= 884 ==> RequestFits(host, port)
  {
    if IsInt(port) {
      DecimalOfIntLength(port);
    }
  }

  /** With the default port 3000, the request overflows `request[1024]`
      exactly when the host has 892 characters or more. Nothing bounds the
      host the loader takes from argv[1]. */
  lemma DefaultPortOverflow(host: string)
    ensures RequestFits(host, 3000) <==> |host| < 892
  {
    assert Decimal(3000) == "3000" by {
      assert NatDecimal(3) == "3";
      assert NatDecimal(30) == "30";
      assert NatDecimal(300) == "300";
    }
  }

  /** The User-Agent holds no CR and no NUL, and neither do the lines
      around it. */
  lemma UserAgentHasNoCarriageReturn()
    ensures '\r' !in USER_AGENT
  {
  }

  lemma UserAgentHasNoNul()
    ensures NUL !in USER_AGENT
  {
  }

  lemma TailHasNoCarriageReturn()
    ensures '\r' !in REQUEST_TAIL
  {
    UserAgentHasNoCarriageReturn();
  }

  lemma TailHasNoNul()
    ensures NUL !in REQUEST_TAIL
  {
    UserAgentHasNoNul();
  }

  /** The port suffix holds no CR, LF or NUL. */
  lemma PortSuffixPlain(port: int)
    ensures '\r' !in PortSuffix(port) && '\n' !in PortSuffix(port) && NUL !in PortSuffix(port)
  {
  }

  /** Every line of the request ends in LF alone; no CR is ever written. */
  lemma RequestHasNoCarriageReturn(host: string, port: int)
    requires '\r' !in host
    ensures '\r' !in UpstreamRequest(host, port)
  {
    TailHasNoCarriageReturn();
    PortSuffixPlain(port);
    assert '\r' !in HostHeader(host, port);
  }

  /** The request holds no NUL, so `strlen(request)` is its length. */
  lemma RequestIsCString(host: string, port: int)
    requires IsCString(host)
    ensures IsCString(UpstreamRequest(host, port))
  {
    TailHasNoNul();
    PortSuffixPlain(port);
    assert NUL !in HostHeader(host, port);
  }

  /** The second line of the request is the Host header, with the port
      exactly when it is not 80. */
  lemma HostLine(host: string, port: int)
    requires '\n' !in host
    ensures PrefixBefore(UpstreamRequest(host, port)[15..], '\n') == HostHeader(host, port)
  {
    var line := HostHeader(host, port);
    assert UpstreamRequest(host, port) == "GET / HTTP/1.0\n" + (line + ['\n'] + REQUEST_TAIL);
    PortSuffixPlain(port);
    assert '\n' !in line;
    PrefixBeforeAppend(line, '\n', REQUEST_TAIL);
  }

  /** The value `get_gateway_response` leaves in `*gateway_answered`. It is
      1 (GATEWAY_STATUS_BAD) exactly when the upstream answered, 2
      (GATEWAY_STATUS_TIMEOUT) exactly when `recv` failed with an errno
      other than EAGAIN/EWOULDBLOCK, and 0 (GATEWAY_STATUS_OK) after a
      resolve failure, a connect failure or a genuine receive timeout. */
  function GatewayAnswered(env: Upstream): (status: int)
    ensures status == 1 <==> Reached(env) && env.received >= 0
    ensures status == 2 <==> Reached(env) && env.received < 0 && !WouldBlock(env.errno)
    ensures status == 0 <==> !Reached(env) || (env.received < 0 && WouldBlock(env.errno))
  {
    if !env.resolves || !Connected(env) then 0
    else if env.received < 0 then (if !WouldBlock(env.errno) then 2 else 0)
    else 1
  }

  /** `sprintf(buffer, ...)` with `text` as the complete output. */
  method Sprintf(buffer: array<char>, text: string)
    requires |text| < buffer.Length
    modifies buffer
    ensures buffer[..|text|] == text && buffer[|text|] == NUL
    ensures buffer[|text| + 1..] == old(buffer[|text| + 1..])
  {
    forall i | 0 <= i < |text| {
      buffer[i] := text[i];
    }
    buffer[|text|] := NUL;
  }

  /** `get_gateway_response(&answered, buffer)`. `written` is what `write()`
      sent upstream, None when nothing was written. The request is formatted
      only after the host resolves, and only then must it fit its array. */
  method GetGatewayResponse(config: Config, env: Upstream) returns (ret: int, answered: int, written: Option<string>)
    requires WellFormed(config)
    requires env.resolves ==> RequestFits(config.targetHost, config.targetPort)
    ensures answered == GatewayAnswered(env)
    ensures ret == (if answered == 1 then 0 else -1)
    ensures written == if Reached(env) then Some(UpstreamRequest(config.targetHost, config.targetPort)) else None
  {
    answered := 0;
    written := None;
    var proxySocketFd := CreateSocket(0, env.socketFd, true);
    if !env.resolves {
      return -1, answered, written;
    }
    var request := new char[TEMP_BUFFER_SIZE];
    var text := UpstreamRequest(config.targetHost, config.targetPort);
    Sprintf(request, text);
    if !(proxySocketFd >= 0 && env.connects) {
      return -1, answered, written;
    }
    RequestIsCString(config.targetHost, config.targetPort);
    assert request[..] == text + [NUL] + request[|text| + 1..];
    PrefixBeforeAppend(text, NUL, request[|text| + 1..]);
    written := Some(PrefixBefore(request[..], NUL));
    if env.received < 0 {
      if env.errno != EAGAIN && env.errno != EWOULDBLOCK {
        answered := 2;
        return -1, answered, written;
      }
      return -1, answered, written;
    }
    answered := 1;
    ret := 0;
  }
}
