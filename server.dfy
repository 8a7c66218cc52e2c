/** The connection server (`serve_connections`) and the start-up chain of
    `main`, over a finite prefix of the events the endless loop meets. */
module Server {
  import opened CStrings
  import opened CNumbers
  import opened ProxyConfig
  import opened Sockets
  import opened Gateway
  import opened Responses

  /** One iteration's system call results: what `accept()` returned, what
      the client `recv()` returned, the upstream attempt, and the contents
      of the gateway buffer. The client's bytes are never inspected, so only
      their count appears. */
  datatype Event = Event(acceptFd: int, received: int, upstream: Upstream, gatewayBuffer: string)

  /** What the server does, in order. `Build` is one call of
      `build_response` (one upstream attempt); `Send` carries the bytes
      `send` writes, None where C leaves them undefined. */
  datatype Action =
    | AcceptFail
    | Accept(fd: int)
    | Recv(fd: int, count: int)
    | Build(ret: int)
    | Send(fd: int, data: Option<string>)
    | Close(fd: int)

  /** The actions of one iteration of the loop. */
  function Step(config: Config, e: Event): (s: seq<Action>)
    requires WellFormed(config)
    ensures |s| == if e.acceptFd < 0 then 1 else if e.received > 0 then 5 else 3
    ensures e.acceptFd >= 0 ==> s[0] == Accept(e.acceptFd) && s[|s| - 1] == Close(e.acceptFd)
  {
    if e.acceptFd < 0 then
      [AcceptFail]
    else if e.received > 0 then
      var built := Dispatch(config, GatewayAnswered(e.upstream), e.gatewayBuffer);
      [Accept(e.acceptFd), Recv(e.acceptFd, e.received), Build(built.ret),
       Send(e.acceptFd, built.response), Close(e.acceptFd)]
    else
      [Accept(e.acceptFd), Recv(e.acceptFd, e.received), Close(e.acceptFd)]
  }

  /** The actions of the loop over `events`, one iteration per event. */
  function ServeTrace(config: Config, events: seq<Event>): (t: seq<Action>)
    requires WellFormed(config)
    ensures |t| == |events| + 2 * AcceptedCount(events) + 2 * ServedCount(events)
  {
    if events == [] then []
    else ServeTrace(config, events[..|events| - 1]) + Step(config, events[|events| - 1])
  }

  /** The request of an iteration that reaches the gateway fits its array
      (see Gateway.GetGatewayResponse). */
  predicate RequestDefined(config: Config, e: Event) {
    e.acceptFd >= 0 && e.received > 0 && e.upstream.resolves ==> RequestFits(config.targetHost, config.targetPort)
  }

  /** `serve_connections(server_fd)`. A negative descriptor ends it at once
      with 1; otherwise `exitCode` is None: the loop is still serving after
      the last event. */
  method ServeConnections(config: Config, serverFd: int, events: seq<Event>)
    returns (exitCode: Option<int>, trace: seq<Action>)
    requires WellFormed(config)
    requires forall i :: 0 <= i < |events| ==> RequestDefined(config, events[i])
    ensures serverFd < 0 ==> exitCode == Some(1) && trace == []
    ensures serverFd >= 0 ==> exitCode == None && trace == ServeTrace(config, events)
  {
    if serverFd < 0 {
      return Some(1), [];
    }
    trace := [];
    var i := 0;
    while i < |events|
      invariant 0 <= i <= |events|
      invariant trace == ServeTrace(config, events[..i])
    {
      assert events[..i + 1][..i] == events[..i];
      var e := events[i];
      i := i + 1;
      var clientFd := e.acceptFd;
      if clientFd < 0 {
        trace := trace + [AcceptFail];
        continue;
      }
      trace := trace + [Accept(clientFd)];
      var count := e.received;
      trace := trace + [Recv(clientFd, count)];
      if count > 0 {
        var ret, response := BuildResponse(config, e.upstream, e.gatewayBuffer);
        trace := trace + [Build(ret)];
        var sent := match response
          case None => None
          case Some(text) => Some(PrefixBefore(text, NUL));
        if response.Some? {
          PrefixBeforeAbsent(response.value, NUL);
        }
        trace := trace + [Send(clientFd, sent)];
      }
      trace := trace + [Close(clientFd)];
    }
    assert events[..|events|] == events;
    exitCode := None;
  }

  /** The kind of an action, without its data. */
  datatype Kind = KAcceptFail | KAccept | KRecv | KBuild | KSend | KClose

  function KindOf(a: Action): Kind {
    match a
    case AcceptFail => KAcceptFail
    case Accept(_) => KAccept
    case Recv(_, _) => KRecv
    case Build(_) => KBuild
    case Send(_, _) => KSend
    case Close(_) => KClose
  }

  /** The kinds of the actions of a trace, in order. */
  function Kinds(t: seq<Action>): (ks: seq<Kind>)
    ensures |ks| == |t|
  {
    seq(|t|, i requires 0 <= i < |t| => KindOf(t[i]))
  }

  /** How many actions of kind `k` the trace holds. */
  function KindCount(t: seq<Action>, k: Kind): nat {
    multiset(Kinds(t))[k]
  }

  lemma KindCountAppend(a: seq<Action>, b: seq<Action>, k: Kind)
    ensures KindCount(a + b, k) == KindCount(a, k) + KindCount(b, k)
  {
    assert Kinds(a + b) == Kinds(a) + Kinds(b);
  }

  /** The events whose `accept` succeeded. */
  function AcceptedCount(events: seq<Event>): nat {
    if events == [] then 0
    else AcceptedCount(events[..|events| - 1]) + (if events[|events| - 1].acceptFd >= 0 then 1 else 0)
  }

  /** The events whose `accept` succeeded and whose client sent a payload. */
  function ServedCount(events: seq<Event>): nat {
    if events == [] then 0
    else
      var e := events[|events| - 1];
      ServedCount(events[..|events| - 1]) + (if e.acceptFd >= 0 && e.received > 0 then 1 else 0)
  }

  /** The shape of one iteration, kind by kind. */
  lemma StepKinds(config: Config, e: Event)
    requires WellFormed(config)
    ensures Kinds(Step(config, e)) ==
      if e.acceptFd < 0 then [KAcceptFail]
      else if e.received > 0 then [KAccept, KRecv, KBuild, KSend, KClose]
      else [KAccept, KRecv, KClose]
  {
  }

  /** The count of each kind over a run is the count over all but the last
      event plus the count in the last event's iteration. */
  lemma ServeTraceKindCount(config: Config, events: seq<Event>, k: Kind)
    requires WellFormed(config) && events != []
    ensures KindCount(ServeTrace(config, events), k)
         == KindCount(ServeTrace(config, events[..|events| - 1]), k) + KindCount(Step(config, events[|events| - 1]), k)
  {
    KindCountAppend(ServeTrace(config, events[..|events| - 1]), Step(config, events[|events| - 1]), k);
  }

  /** Over a run, every accepted connection is received from and closed
      exactly once, and a failed accept is followed by nothing. */
  lemma {:induction false} ServeConnectionCounts(config: Config, events: seq<Event>)
    requires WellFormed(config)
    ensures KindCount(ServeTrace(config, events), KAccept) == AcceptedCount(events)
    ensures KindCount(ServeTrace(config, events), KRecv) == AcceptedCount(events)
    ensures KindCount(ServeTrace(config, events), KClose) == AcceptedCount(events)
    ensures KindCount(ServeTrace(config, events), KAcceptFail) == |events| - AcceptedCount(events)
  {
    if events != [] {
      var init := events[..|events| - 1];
      var e := events[|events| - 1];
      ServeConnectionCounts(config, init);
      ServeTraceKindCount(config, events, KAccept);
      ServeTraceKindCount(config, events, KRecv);
      ServeTraceKindCount(config, events, KClose);
      ServeTraceKindCount(config, events, KAcceptFail);
      StepKinds(config, e);
      assert AcceptedCount(init) <= |init| by {
        AcceptedAtMost(init);
      }
    }
  }

  /** Over a run, exactly the connections with a payload get one
      `build_response` and one `send`. */
  lemma {:induction false} ServeResponseCounts(config: Config, events: seq<Event>)
    requires WellFormed(config)
    ensures KindCount(ServeTrace(config, events), KBuild) == ServedCount(events)
    ensures KindCount(ServeTrace(config, events), KSend) == ServedCount(events)
  {
    if events != [] {
      var e := events[|events| - 1];
      ServeResponseCounts(config, events[..|events| - 1]);
      ServeTraceKindCount(config, events, KBuild);
      ServeTraceKindCount(config, events, KSend);
      StepKinds(config, e);
    }
  }

  lemma {:induction false} AcceptedAtMost(events: seq<Event>)
    ensures AcceptedCount(events) <= |events|
  {
    if events != [] {
      AcceptedAtMost(events[..|events| - 1]);
    }
  }

  /** A served connection accepts and closes the same descriptor once. */
  lemma ServedClosesAccepted(c: int, n: int, ret: int, data: Option<string>, fd: int)
    ensures var s := [Accept(c), Recv(c, n), Build(ret), Send(c, data), Close(c)];
            multiset(s)[Close(fd)] == multiset(s)[Accept(fd)]
  {
    var s := [Accept(c), Recv(c, n), Build(ret), Send(c, data), Close(c)];
    assert multiset(s) == multiset{Accept(c), Recv(c, n), Build(ret), Send(c, data), Close(c)};
  }

  lemma StepClosesAccepted(config: Config, e: Event, fd: int)
    requires WellFormed(config)
    ensures multiset(Step(config, e))[Close(fd)] == multiset(Step(config, e))[Accept(fd)]
  {
    var c := e.acceptFd;
    if c < 0 {
      assert multiset(Step(config, e)) == multiset{AcceptFail};
    } else if e.received > 0 {
      var built := Dispatch(config, GatewayAnswered(e.upstream), e.gatewayBuffer);
      ServedClosesAccepted(c, e.received, built.ret, built.response, fd);
    } else {
      assert multiset(Step(config, e)) == multiset{Accept(c), Recv(c, e.received), Close(c)};
    }
  }

  /** Each client descriptor is closed exactly as often as it was accepted. */
  lemma {:induction false} ClosedOncePerAccept(config: Config, events: seq<Event>, fd: int)
    requires WellFormed(config)
    ensures multiset(ServeTrace(config, events))[Close(fd)] == multiset(ServeTrace(config, events))[Accept(fd)]
  {
    if events != [] {
      var init := events[..|events| - 1];
      ClosedOncePerAccept(config, init, fd);
      var s := Step(config, events[|events| - 1]);
      StepClosesAccepted(config, events[|events| - 1], fd);
      assert multiset(ServeTrace(config, events)) == multiset(ServeTrace(config, init)) + multiset(s);
    }
  }

  /** Order around position `k`: an upstream attempt only follows a receive
      that got a payload, and it is followed by the `send` to that client
      and then by the close of that client; a `send` only follows an
      upstream attempt. */
  predicate OrderedAt(t: seq<Action>, k: int)
    requires 0 <= k < |t|
  {
    && (t[k].Build? ==>
          && 1 <= k && k + 2 < |t|
          && t[k - 1].Recv? && t[k - 1].count > 0
          && t[k + 1].Send? && t[k + 1].fd == t[k - 1].fd
          && t[k + 2] == Close(t[k - 1].fd))
    && (t[k].Send? ==> 1 <= k && t[k - 1].Build?)
  }

  predicate Ordered(t: seq<Action>) {
    forall k :: 0 <= k < |t| ==> OrderedAt(t, k)
  }

  lemma {:induction false} ServeOrdered(config: Config, events: seq<Event>)
    requires WellFormed(config)
    ensures Ordered(ServeTrace(config, events))
  {
    if events != [] {
      var init := events[..|events| - 1];
      ServeOrdered(config, init);
      var a := ServeTrace(config, init);
      var s := Step(config, events[|events| - 1]);
      assert Ordered(s);
      var t := a + s;
      forall k | 0 <= k < |t|
        ensures OrderedAt(t, k)
      {
        if k < |a| {
          assert t[k] == a[k];
          assert OrderedAt(a, k);
        } else {
          var j := k - |a|;
          assert t[k] == s[j];
          assert OrderedAt(s, j);
          if j >= 1 {
            assert t[k - 1] == s[j - 1];
          }
          if j + 2 < |s| {
            assert t[k + 1] == s[j + 1] && t[k + 2] == s[j + 2];
          }
        }
      }
    }
  }

  /** A defined response that is sent is a C string shorter than
      MEMORY_CONNECTION_BUFFER, so `send` writes all of it (`strlen`) and it
      fits, with its terminator, in the `2 * MEMORY_CONNECTION_BUFFER`
      allocation. */
  predicate SendFits(config: Config, a: Action) {
    a.Send? && a.data.Some? ==>
      && IsCString(a.data.value)
      && |a.data.value| < config.memoryConnectionBuffer
      && |a.data.value| + 1 <= 2 * config.memoryConnectionBuffer
  }

  lemma {:induction false} SentBounded(config: Config, events: seq<Event>)
    requires WellFormed(config)
    ensures forall k :: 0 <= k < |ServeTrace(config, events)| ==> SendFits(config, ServeTrace(config, events)[k])
  {
    if events != [] {
      var init := events[..|events| - 1];
      SentBounded(config, init);
      var a := ServeTrace(config, init);
      var s := Step(config, events[|events| - 1]);
      var t := a + s;
      forall k | 0 <= k < |t|
        ensures SendFits(config, t[k])
      {
        if k >= |a| {
          assert t[k] == s[k - |a|];
        } else {
          assert t[k] == a[k];
        }
      }
    }
  }

  /** `main`: `serve_connections(bind_and_listen_socket(create_socket(1)))`
      after the configuration is loaded. Start-up fails with 1 exactly when
      `socket`, `bind` or `listen` fails; otherwise the server runs the
      events. `socket()` returns -1 or a descriptor. */
  method Launch(config: Config, startup: Startup, events: seq<Event>) returns (exitCode: Option<int>, trace: seq<Action>)
    requires WellFormed(config)
    requires startup.socketResult >= -1
    requires forall i :: 0 <= i < |events| ==> RequestDefined(config, events[i])
    ensures exitCode == Some(1) <==> startup.socketResult == -1 || !startup.bindOk || !startup.listenOk
    ensures exitCode == Some(1) ==> trace == []
    ensures exitCode != Some(1) ==> exitCode == None && trace == ServeTrace(config, events)
  {
    var socketFd := CreateSocket(1, startup.socketResult, startup.reuseOk);
    var serverFd := BindAndListenSocket(socketFd, startup.bindOk, startup.listenOk);
    assert serverFd == ListeningFd(startup);
    exitCode, trace := ServeConnections(config, serverFd, events);
  }

  /** A target host of at most 884 characters keeps every upstream request
      within its array, whatever happens on the connections. */
  lemma ShortHostDefined(config: Config, e: Event)
    requires WellFormed(config) && |config.targetHost| <= 884
    ensures RequestDefined(config, e)
  {
    RequestFitsIff(config.targetHost, config.targetPort);
  }

  /** `main(argc, argv)`: load the configuration, then start up and serve.
      The request for the loaded host and port must fit `request`, or the
      `sprintf` that builds it would overflow. */
  method Start(argv: seq<string>, startup: Startup, events: seq<Event>)
    returns (config: Config, exitCode: Option<int>, trace: seq<Action>)
    requires forall i :: 0 <= i < |argv| ==> IsCString(argv[i])
    requires |argv| > 2 ==> IsInt(Atoi(argv[2]))
    requires RequestFits(if |argv| > 1 then argv[1] else "localhost", if |argv| > 2 then Atoi(argv[2]) else 3000)
    requires startup.socketResult >= -1
    ensures config.targetHost == if |argv| > 1 then argv[1] else "localhost"
    ensures config.targetPort == if |argv| > 2 then Atoi(argv[2]) else 3000
    ensures config.loggingVerbose == if |argv| > 3 && argv[3] == "--verbose" then 1 else 0
    ensures config.(targetHost := "localhost", targetPort := 3000, loggingVerbose := 0) == Defaults
    ensures exitCode == Some(1) <==> startup.socketResult == -1 || !startup.bindOk || !startup.listenOk
    ensures exitCode == Some(1) ==> trace == []
    ensures exitCode != Some(1) ==> exitCode == None && trace == ServeTrace(config, events)
  {
    config := ParseAndLoadConfig(argv);
    exitCode, trace := Launch(config, startup, events);
  }
}
