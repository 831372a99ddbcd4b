/**
 * The two front ends of main.go, up to the point where they hand a configured
 * scanner to `Scan`: `HandleRequest` (the hosted-function handler, fed a decoded
 * JSON request) and `consoleInput` (the command line, fed already-parsed flags).
 */
module Requests {
  import opened Results
  import opened GoStrings
  import opened Scanner
  import opened PortFlags

  /** `InputRequest`: the decoded JSON request. */
  datatype InputRequest = InputRequest(ports: seq<Range>, host: string, port: int, concurrency: int, timeout: int)

  datatype RequestError = PortsNotSet | PortAndPortsSet

  function RequestErrorMessage(e: RequestError): string {
    match e
    case PortsNotSet => "port(s) not set"
    case PortAndPortsSet => "set only port or ports"
  }

  /** The concurrency `HandleRequest` passes on: anything below 1 becomes 1. */
  function AtLeastOne(n: int): (r: int)
    ensures r >= 1 && r >= n
    ensures r == n || r == 1
  {
    if n < 1 then 1 else n
  }

  /** `HandleRequest` up to its `Scan` call: validation and normalisation of the request. */
  function PrepareRequest(req: InputRequest): (r: Result<TCPScanner, RequestError>)
    ensures r == Err(PortsNotSet) <==> req.port == 0 && |req.ports| == 0
    ensures r == Err(PortAndPortsSet) <==> req.port != 0 && |req.ports| != 0
    ensures r.Ok? ==> r.value.portRange == if req.port != 0 then [Range(0, req.port)] else req.ports
    ensures r.Ok? ==> r.value.concurrency >= 1 && (req.concurrency >= 1 ==> r.value.concurrency == req.concurrency)
    ensures r.Ok? ==> r.value.concurrency == 1 || r.value.concurrency == req.concurrency
    ensures r.Ok? ==> !r.value.showProgress && r.value.host == req.host && r.value.headers == Some(map[])
    ensures r.Ok? ==> r.value.timeout == SetTimeout(ZeroScanner, req.timeout).timeout
  {
    if req.port == 0 && |req.ports| == 0 then Err(PortsNotSet)
    else if req.port != 0 && |req.ports| != 0 then Err(PortAndPortsSet)
    else
      var t := if req.port != 0 then AddPortRange(ZeroScanner, 0, req.port) else ZeroScanner.(portRange := req.ports);
      var t := t.(concurrency := AtLeastOne(req.concurrency), showProgress := false);
      Ok(SetHost(SetTimeout(t, req.timeout), req.host))
  }

  /** A single-port request scans 0, 1, ..., port - 1: every port below it, but never the port itself. */
  lemma SinglePortRequestSkipsPort(req: InputRequest, q: int)
    requires req.port != 0 && |req.ports| == 0
    ensures PrepareRequest(req).Ok?
    ensures q in ExpandAll(PrepareRequest(req).value.portRange) <==> 0 <= q < req.port
    ensures req.port !in ExpandAll(PrepareRequest(req).value.portRange)
  {
    InRangesSingle(Range(0, req.port), q);
    InRangesSingle(Range(0, req.port), req.port);
  }

  /** How `HandleRequest` fails: it returns an error with this text, or its scan panics. */
  datatype HandlerError = Rejected(message: string) | Crashed(reason: PanicReason)

  /**
   * `HandleRequest` through its scan (the JSON encoding of the result is not modelled):
   * a valid request never blocks; it completes exactly when every port it visits
   * resolves, with concurrency in [1, cpuCount], the header map holding exactly
   * the requested ports the network reports open with their banners, and every
   * other setting as the request prepared it.
   */
  function HandleRequest(req: InputRequest, cpuCount: int, net: Network): (r: Result<TCPScanner, HandlerError>)
    requires cpuCount >= 1
    ensures r == Err(Rejected("port(s) not set")) <==> req.port == 0 && |req.ports| == 0
    ensures r == Err(Rejected("set only port or ports")) <==> req.port != 0 && |req.ports| != 0
    ensures r.Err? && r.error.Rejected? <==> PrepareRequest(req).Err?
    ensures r.Err? && r.error.Crashed? <==>
              && PrepareRequest(req).Ok?
              && !(ScannableRanges(PrepareRequest(req).value.portRange)
                   && (net.hostResolves || ExpandAll(PrepareRequest(req).value.portRange) == []))
    ensures r.Err? && r.error.Crashed? ==>
              && r.error.reason.UnresolvedAddress?
              && r.error.reason.port in ExpandAll(PrepareRequest(req).value.portRange)
              && !Resolves(r.error.reason.port, net)
    ensures r.Ok? ==> 1 <= r.value.concurrency <= cpuCount
    ensures r.Ok? ==> r.value.concurrency == ClampConcurrency(AtLeastOne(req.concurrency), cpuCount)
    ensures r.Ok? ==>
              && r.value.headers.Some?
              && r.value.headers.value.Keys == OpenPorts(ExpandAll(PrepareRequest(req).value.portRange), net)
    ensures r.Ok? ==> forall p :: p in r.value.headers.value ==>
              r.value.headers.value[p] == GetHeaders(req.host, p, net.get).banners
    ensures r.Ok? ==> r.value == PrepareRequest(req).value.(concurrency := r.value.concurrency, headers := r.value.headers)
  {
    match PrepareRequest(req)
    case Err(e) =>
      assert |RequestErrorMessage(PortsNotSet)| == 15 && |RequestErrorMessage(PortAndPortsSet)| == 22;
      Err(Rejected(RequestErrorMessage(e)))
    case Ok(t) =>
      AllocatedScanEnds(t, cpuCount, net);
      match Scan(t, cpuCount, net)
      case Completed(scanned) => Ok(scanned)
      case Panicked(reason) => Err(Crashed(reason))
      case Blocked => assert false; Err(Crashed(NegativeSemaphore))
  }

  /** The flag values `consoleInput` reads after `flag.Parse`. */
  datatype ConsoleArgs = ConsoleArgs(host: string, port: int, concurrency: int, timeout: int, ports: PortRangeFlag)

  /** `--port`'s default, meaning "no single port given". */
  const NoPort: int := -1

  /** The flags' defaults: --host localhost, --port -1, --thread 8, --timeout 2000, no --ports. */
  const DefaultArgs: ConsoleArgs := ConsoleArgs("localhost", NoPort, 8, 2000, [])

  /** The three checks of `consoleInput`; each one panics with its own message. */
  datatype ConsoleError =
    | BlankHost      // "Empty hostname string"
    | NoPortGiven    // neither --ports nor --port was given
    | BothPortFlags  // both --ports and --port were given

  /** `consoleInput` after `flag.Parse`: each rejection is a `panic` in the source. */
  function ConsoleInput(args: ConsoleArgs): (r: Result<TCPScanner, ConsoleError>)
    ensures r == Err(BlankHost) <==> AllSpace(args.host)
    ensures r == Err(NoPortGiven) <==> !AllSpace(args.host) && args.port == NoPort && |args.ports| == 0
    ensures r == Err(BothPortFlags) <==> !AllSpace(args.host) && args.port != NoPort && |args.ports| != 0
    ensures r.Ok? ==> r.value.portRange == if args.port != NoPort then [Range(-1, args.port)] else args.ports
    ensures r.Ok? ==> r.value.concurrency == args.concurrency && r.value.showProgress
    ensures r.Ok? ==> r.value.host == args.host && r.value.headers == Some(map[])
    ensures r.Ok? ==> r.value.timeout == SetTimeout(ZeroScanner, args.timeout).timeout
  {
    IsBlankIffAllSpace(args.host);
    if IsBlank(args.host) then Err(BlankHost)
    else if args.port == NoPort && |args.ports| == 0 then Err(NoPortGiven)
    else if args.port != NoPort && |args.ports| != 0 then Err(BothPortFlags)
    else
      var ports := if args.port != NoPort then [Range(-1, args.port)] else args.ports;
      var t := TCPScanner("", ports, None, args.concurrency, 0, true);
      Ok(SetTimeout(SetHost(t, args.host), args.timeout))
  }

  /** With every flag left at its default, the command line refuses to start. */
  lemma DefaultArgsRejected()
    ensures ConsoleInput(DefaultArgs) == Err(NoPortGiven)
  {
    assert !IsSpace(DefaultArgs.host[0]);
  }

  /** A single `--port p` scans -1, 0, ..., p - 1: it starts below every TCP port and never reaches p. */
  lemma ConsoleSinglePortSkipsPort(args: ConsoleArgs, q: int)
    requires !AllSpace(args.host) && args.port != NoPort && |args.ports| == 0
    ensures ConsoleInput(args).Ok?
    ensures q in ExpandAll(ConsoleInput(args).value.portRange) <==> -1 <= q < args.port
    ensures args.port !in ExpandAll(ConsoleInput(args).value.portRange)
  {
    InRangesSingle(Range(-1, args.port), q);
    InRangesSingle(Range(-1, args.port), args.port);
  }

  /**
   * With at least one thread, `--port p` for any p >= 0 never reports a result: its
   * first port, -1, is an invalid port for `ResolveTCPAddr`, so the scan panics. When
   * the host resolves and p <= 65536, -1 is the only port that fails, so it is the one reported.
   */
  lemma ConsoleSinglePortPanics(args: ConsoleArgs, cpuCount: int, net: Network)
    requires cpuCount >= 1 && args.concurrency >= 1
    requires !AllSpace(args.host) && args.port >= 0 && |args.ports| == 0
    ensures ConsoleInput(args).Ok?
    ensures Scan(ConsoleInput(args).value, cpuCount, net).Panicked?
    ensures Scan(ConsoleInput(args).value, cpuCount, net).reason.UnresolvedAddress?
    ensures net.hostResolves && args.port <= MaxPort + 1 ==>
              Scan(ConsoleInput(args).value, cpuCount, net).reason == UnresolvedAddress(-1)
  {
    var t := ConsoleInput(args).value;
    assert t.portRange[0].start <= -1 < t.portRange[0].stop;
    InvalidPortPanics(t, cpuCount, net, -1);
    if net.hostResolves && args.port <= MaxPort + 1 {
      OnlyStartFails(t, cpuCount, net, Range(-1, args.port));
    }
  }

  /**
   * `--thread` is not raised to 1 on the command line: with 0 threads and at least
   * one port to scan the scan never returns, and with fewer it panics at once.
   */
  lemma ConsoleNonPositiveThreadsStopScan(args: ConsoleArgs, cpuCount: int, net: Network)
    requires cpuCount >= 1 && args.concurrency <= 0
    ensures ConsoleInput(args).Ok? ==>
            var o := Scan(ConsoleInput(args).value, cpuCount, net);
            && (args.concurrency < 0 ==> o == Panicked(NegativeSemaphore))
            && (args.concurrency == 0 && |ExpandAll(ConsoleInput(args).value.portRange)| > 0 ==> o.Blocked?)
  {
  }

  /** One concrete command line that hangs: `--port 81 --thread 0`. */
  lemma ZeroThreadsExample(net: Network)
    ensures var t := ConsoleInput(ConsoleArgs("localhost", 81, 0, 2000, []));
            t.Ok? && Scan(t.value, 4, net).Blocked?
  {
    var args := ConsoleArgs("localhost", 81, 0, 2000, []);
    assert !IsSpace(args.host[0]);
    var rs := ConsoleInput(args).value.portRange;
    assert rs == [Range(-1, 81)];
    assert InRanges(rs, 80);
  }

  /** The range a single port evidently asks for: that port and nothing else. */
  function SinglePortRange(p: int): (r: Range)
    ensures Expand(r) == [p]
  {
    Range(p, p + 1)
  }

  /** `HandleRequest`'s validation with a single port scanning exactly that port. */
  function PrepareRequestIntended(req: InputRequest): (r: Result<TCPScanner, RequestError>)
    ensures r.Err? <==> PrepareRequest(req).Err?
    ensures r.Ok? && req.port != 0 ==> ExpandAll(r.value.portRange) == [req.port]
    ensures r.Ok? && req.port == 0 ==> r == PrepareRequest(req)
  {
    match PrepareRequest(req)
    case Err(e) => Err(e)
    case Ok(t) =>
      if req.port != 0 then
        var rs := [SinglePortRange(req.port)];
        assert ExpandAll(rs) == Expand(rs[0]) + ExpandAll(rs[1..]);
        Ok(t.(portRange := rs))
      else Ok(t)
  }

  /** `consoleInput` with a single port scanning exactly that port and `--thread` raised to at least 1. */
  function ConsoleInputIntended(args: ConsoleArgs): (r: Result<TCPScanner, ConsoleError>)
    ensures r.Err? <==> ConsoleInput(args).Err?
    ensures r.Ok? && args.port != NoPort ==> ExpandAll(r.value.portRange) == [args.port]
    ensures r.Ok? && args.port == NoPort ==> r.value.portRange == args.ports
    ensures r.Ok? ==> r.value.concurrency == AtLeastOne(args.concurrency)
    ensures r.Ok? ==> r.value.headers == Some(map[])
  {
    match ConsoleInput(args)
    case Err(e) => Err(e)
    case Ok(t) =>
      var rs := if args.port != NoPort then [SinglePortRange(args.port)] else t.portRange;
      assert args.port != NoPort ==> ExpandAll(rs) == Expand(rs[0]) + ExpandAll(rs[1..]);
      Ok(t.(portRange := rs, concurrency := AtLeastOne(args.concurrency)))
  }

  /**
   * The corrected command line never stalls on its semaphore, and a single `--port p` scan
   * finishes exactly when p is a valid port on a resolvable host.
   */
  lemma ConsoleIntendedScanEnds(args: ConsoleArgs, cpuCount: int, net: Network)
    requires cpuCount >= 1
    ensures ConsoleInputIntended(args).Ok? ==>
              && !Scan(ConsoleInputIntended(args).value, cpuCount, net).Blocked?
              && Scan(ConsoleInputIntended(args).value, cpuCount, net) != Panicked(NegativeSemaphore)
    ensures ConsoleInputIntended(args).Ok? && args.port != NoPort ==>
              (Scan(ConsoleInputIntended(args).value, cpuCount, net).Completed? <==> Resolves(args.port, net))
  {
    if ConsoleInputIntended(args).Err? {
      return;
    }
    var u := ConsoleInputIntended(args).value;
    assert ClampConcurrency(u.concurrency, cpuCount) >= 1;
    if args.port != NoPort {
      SinglePortScanEnds(u, cpuCount, net, args.port);
    }
  }
}
