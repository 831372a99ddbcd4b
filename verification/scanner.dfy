/**
 * The TCP scanner of datastructures/TCPScanner.go, read sequentially.
 *
 * The network is an oracle: `dial` says what connecting to a port of the scanned
 * host yields and `get` what an HTTP GET of a URL yields. `runtime.NumCPU` is the
 * parameter `cpuCount`. `Scan` is a fold over the expanded ports in range order;
 * the goroutines, the channel semaphore and the progress bar are not modelled,
 * except for the two ways the semaphore's size stops a scan (see `Scan`).
 */
module Scanner {
  import opened Results
  import opened GoInt
  import opened GoStrings
  import opened GoStrconv

  /** One `[start, stop]` entry of `PortRange`; the scan loop visits start, start+1, ..., stop-1. */
  datatype Range = Range(start: int, stop: int)

  /**
   * The scanner's state. `headers` maps each open port to its captured `Server`
   * header values; `None` is Go's nil map (the zero value, before `SetHost`).
   * `timeout` is a `time.Duration`, in nanoseconds.
   */
  datatype TCPScanner = TCPScanner(
    host: string,
    portRange: seq<Range>,
    headers: Option<map<int, seq<string>>>,
    concurrency: int,
    timeout: int,
    showProgress: bool)

  /** Go's zero value of the struct. */
  const ZeroScanner: TCPScanner := TCPScanner("", [], None, 0, 0, false)

  function SetHost(t: TCPScanner, host: string): (r: TCPScanner)
    ensures r.host == host && r.headers == Some(map[])
    ensures r.portRange == t.portRange && r.concurrency == t.concurrency
    ensures r.timeout == t.timeout && r.showProgress == t.showProgress
  {
    t.(host := host, headers := Some(map[]))
  }

  /** `time.Millisecond`, in nanoseconds. */
  const NanosPerMilli: int := 1_000_000

  /** The largest millisecond count whose nanosecond value fits an `int64`. */
  const MaxExactMillis: int := MaxInt64 / NanosPerMilli

  /** `time.Millisecond * time.Duration(ms)`: a 64-bit product, so it wraps for huge `ms`. */
  function SetTimeout(t: TCPScanner, ms: int): (r: TCPScanner)
    ensures IsInt64(r.timeout)
    ensures (ms * NanosPerMilli - r.timeout) % TwoTo64 == 0
    ensures -MaxExactMillis <= ms <= MaxExactMillis ==> r.timeout == ms * NanosPerMilli
    ensures r.host == t.host && r.portRange == t.portRange && r.headers == t.headers
    ensures r.concurrency == t.concurrency && r.showProgress == t.showProgress
  {
    t.(timeout := Wrap64(NanosPerMilli * ms))
  }

  /** One millisecond past the exact range, the stored duration wraps to a negative value. */
  lemma SetTimeoutWraps()
    ensures SetTimeout(ZeroScanner, MaxExactMillis + 1).timeout < 0
  {
    assert MaxExactMillis == 9223372036854;
    assert Wrap64(NanosPerMilli * (MaxExactMillis + 1)) == 9223372036855000000 - TwoTo64;
  }

  function AddPortRange(t: TCPScanner, startPort: int, stopPort: int): (r: TCPScanner)
    ensures |r.portRange| == |t.portRange| + 1
    ensures r.portRange[..|t.portRange|] == t.portRange
    ensures r.portRange[|t.portRange|] == Range(startPort, stopPort)
    ensures r.host == t.host && r.headers == t.headers && r.concurrency == t.concurrency
    ensures r.timeout == t.timeout && r.showProgress == t.showProgress
  {
    t.(portRange := t.portRange + [Range(startPort, stopPort)])
  }

  /** The ports of one range, as the loop `for j := start; j < stop; j++` visits them. */
  function Expand(r: Range): (ports: seq<int>)
    ensures |ports| == if r.start < r.stop then r.stop - r.start else 0
    ensures forall i :: 0 <= i < |ports| ==> ports[i] == r.start + i
    decreases r.stop - r.start
  {
    if r.start < r.stop then [r.start] + Expand(Range(r.start + 1, r.stop)) else []
  }

  lemma InExpand(r: Range, p: int)
    ensures p in Expand(r) <==> r.start <= p < r.stop
  {
    if r.start <= p < r.stop {
      assert Expand(r)[p - r.start] == p;
    }
  }

  /** Some range of `rs` contains `p`, with the stop excluded. */
  predicate InRanges(rs: seq<Range>, p: int) {
    exists i :: 0 <= i < |rs| && rs[i].start <= p < rs[i].stop
  }

  /** A one-range list visits exactly that range's ports. */
  lemma InRangesSingle(r: Range, q: int)
    ensures InRanges([r], q) <==> r.start <= q < r.stop
  {
    assert [r][0] == r;
  }

  /** Every range's start is at most its stop, as the command line's range parser guarantees. */
  predicate WellFormed(rs: seq<Range>) {
    forall i :: 0 <= i < |rs| ==> rs[i].start <= rs[i].stop
  }

  /** All ports the scan visits, range by range in list order. */
  function ExpandAll(rs: seq<Range>): (ports: seq<int>)
    ensures forall p :: p in ports <==> InRanges(rs, p)
    decreases |rs|
  {
    if |rs| == 0 then []
    else
      var ports := Expand(rs[0]) + ExpandAll(rs[1..]);
      assert forall p :: p in ports <==> InRanges(rs, p) by {
        forall p
          ensures p in ports <==> InRanges(rs, p)
        {
          InExpand(rs[0], p);
          if InRanges(rs, p) {
            var i :| 0 <= i < |rs| && rs[i].start <= p < rs[i].stop;
            if i > 0 {
              assert rs[1..][i - 1] == rs[i];
            }
          }
          if InRanges(rs[1..], p) {
            var i :| 0 <= i < |rs[1..]| && rs[1..][i].start <= p < rs[1..][i].stop;
            assert rs[i + 1] == rs[1..][i];
          }
        }
      }
      ports
  }

  /** Appending a range appends its ports to the scan order. */
  lemma {:induction false} ExpandAllAppend(rs: seq<Range>, r: Range)
    ensures ExpandAll(rs + [r]) == ExpandAll(rs) + Expand(r)
    decreases |rs|
  {
    if |rs| == 0 {
      assert ExpandAll([r]) == Expand(r) + ExpandAll([]);
    } else {
      assert (rs + [r])[1..] == rs[1..] + [r];
      ExpandAllAppend(rs[1..], r);
    }
  }

  /** `getTotalPortCount`: the sum of stop - start over the ranges, the progress bar's total. */
  function TotalPortCount(ports: seq<Range>): (count: int)
    ensures count <= |ExpandAll(ports)|
    ensures count == |ExpandAll(ports)| <==> WellFormed(ports)
    decreases |ports|
  {
    if |ports| == 0 then 0
    else
      var count := (ports[0].stop - ports[0].start) + TotalPortCount(ports[1..]);
      assert WellFormed(ports) <==> ports[0].start <= ports[0].stop && WellFormed(ports[1..]) by {
        if ports[0].start <= ports[0].stop && WellFormed(ports[1..]) {
          forall i | 0 <= i < |ports|
            ensures ports[i].start <= ports[i].stop
          {
            if i > 0 {
              assert ports[i] == ports[1..][i - 1];
            }
          }
        }
      }
      count
  }

  /** A reversed range counts negatively towards the total but adds no ports to the scan. */
  lemma TotalPortCountOfReversedRange()
    ensures TotalPortCount([Range(5, 3)]) == -2
    ensures ExpandAll([Range(5, 3)]) == []
  {
    assert [Range(5, 3)][1..] == [];
  }

  /** `AddPortRange` extends the scan by exactly the new range's ports and the total by stop - start. */
  lemma {:induction false} AddPortRangeExtendsScan(t: TCPScanner, startPort: int, stopPort: int)
    ensures ExpandAll(AddPortRange(t, startPort, stopPort).portRange)
         == ExpandAll(t.portRange) + Expand(Range(startPort, stopPort))
    ensures TotalPortCount(AddPortRange(t, startPort, stopPort).portRange)
         == TotalPortCount(t.portRange) + (stopPort - startPort)
  {
    ExpandAllAppend(t.portRange, Range(startPort, stopPort));
    TotalPortCountAppend(t.portRange, Range(startPort, stopPort));
  }

  lemma {:induction false} TotalPortCountAppend(rs: seq<Range>, r: Range)
    ensures TotalPortCount(rs + [r]) == TotalPortCount(rs) + (r.stop - r.start)
    decreases |rs|
  {
    if |rs| == 0 {
      assert [r][1..] == [];
    } else {
      assert (rs + [r])[1..] == rs[1..] + [r];
      TotalPortCountAppend(rs[1..], r);
    }
  }

  /**
   * The clamp at the start of `Scan`: a request above the CPU count is lowered to it.
   * Nothing raises a request below 1.
   */
  function ClampConcurrency(requested: int, cpuCount: int): (c: int)
    ensures c <= requested && c <= cpuCount
    ensures c == requested || c == cpuCount
  {
    if requested > cpuCount then cpuCount else requested
  }

  /** What a TCP connect attempt to a port of the scanned host yields. */
  datatype DialResult = Connected | DialError(message: string)

  /** What an HTTP GET yields: the response's header map, or a failure with its message. */
  datatype HttpResult = Response(header: map<string, seq<string>>) | RequestError(message: string)

  /**
   * The network as seen by one scan: whether the host name resolves to an IPv4
   * address, what connecting to each port yields, and what each GET yields.
   */
  datatype Network = Network(hostResolves: bool, dial: int -> DialResult, get: string -> HttpResult)

  /** The largest port number `net.ResolveTCPAddr` accepts. */
  const MaxPort: int := 65535

  predicate ValidPort(p: int) {
    0 <= p <= MaxPort
  }

  /**
   * Whether `net.ResolveTCPAddr("tcp4", host:port)` succeeds: a port outside
   * 0..65535 is an "invalid port", and the host has to resolve.
   */
  predicate Resolves(port: int, net: Network) {
    net.hostResolves && ValidPort(port)
  }

  const RefusedMessage: string := "connect: connection refused"
  const TimeoutMessage: string := "i/o timeout"
  const HttpsMismatchMessage: string := "http: server gave HTTP response to HTTPS client"
  const ServerKey: string := "Server"

  /** Whether `IsOpen` logs a dial failure at error severity: refusals and timeouts are expected. */
  function LoggedAsError(message: string): (b: bool)
    ensures b <==> ((forall i :: !OccursAt(message, RefusedMessage, i))
                    && (forall i :: !OccursAt(message, TimeoutMessage, i)))
  {
    !Contains(message, RefusedMessage) && !Contains(message, TimeoutMessage)
  }

  /** The values stored under `Server` in a response header map, none if it is absent. */
  function ServerValues(header: map<string, seq<string>>): seq<string> {
    if ServerKey in header then header[ServerKey] else []
  }

  /** The header loop of `getHeaders`: visits the keys in arbitrary order and copies the `Server` values. */
  method CollectServerHeaders(header: map<string, seq<string>>) returns (headers: seq<string>)
    ensures headers == ServerValues(header)
  {
    headers := [];
    var keys := header.Keys;
    while keys != {}
      invariant keys <= header.Keys
      invariant headers == if ServerKey in header && ServerKey !in keys then header[ServerKey] else []
      decreases keys
    {
      var k :| k in keys;
      keys := keys - {k};
      if k == ServerKey {
        var v := header[k];
        var i := 0;
        while i < |v|
          invariant 0 <= i <= |v|
          invariant headers == v[..i]
        {
          headers := headers + [v[i]];
          i := i + 1;
        }
      }
    }
  }

  function HttpUrl(host: string, port: int): string {
    "http://" + host + ":" + FormatInt(port)
  }

  function HttpsUrl(host: string, port: int): string {
    "https://" + host + ":" + FormatInt(port)
  }

  /** The banners `getHeaders` captured and the URLs it requested, in order. */
  datatype Fetch = Fetch(banners: seq<string>, requested: seq<string>)

  /**
   * `getHeaders`: GET over http; only if that fails with the HTTPS-mismatch message,
   * GET once more over https. Any other failure captures nothing.
   */
  function GetHeaders(host: string, port: int, get: string -> HttpResult): (f: Fetch)
    ensures 1 <= |f.requested| <= 2 && f.requested[0] == HttpUrl(host, port)
    ensures |f.requested| == 2 <==>
              get(HttpUrl(host, port)).RequestError?
              && exists i :: OccursAt(get(HttpUrl(host, port)).message, HttpsMismatchMessage, i)
    ensures |f.requested| == 2 ==> f.requested[1] == HttpsUrl(host, port)
    ensures var last := get(f.requested[|f.requested| - 1]);
            f.banners == if last.Response? then ServerValues(last.header) else []
  {
    match get(HttpUrl(host, port))
    case Response(header) => Fetch(ServerValues(header), [HttpUrl(host, port)])
    case RequestError(message) =>
      if Contains(message, HttpsMismatchMessage) then
        var requested := [HttpUrl(host, port), HttpsUrl(host, port)];
        match get(HttpsUrl(host, port))
        case Response(header) => Fetch(ServerValues(header), requested)
        case RequestError(_) => Fetch([], requested)
      else Fetch([], [HttpUrl(host, port)])
  }

  datatype PanicReason =
    | NegativeSemaphore             // make(chan struct{}, n) with n < 0
    | UnresolvedAddress(port: int)  // zap's Panic after ResolveTCPAddr fails for this port
    | NilMapWrite                   // storing an open port's banners into a nil Headers map

  /**
   * What `IsOpen` does to one port: its answer, the `Headers` map afterwards and
   * whether a dial failure was logged at error severity; or the panic it raises.
   */
  datatype Probe =
    | Probed(open: bool, headers: Option<map<int, seq<string>>>, loggedAsError: bool)
    | ProbePanicked(reason: PanicReason)

  /**
   * `IsOpen`: an address that does not resolve panics; a failed dial answers false
   * and leaves `Headers` alone; an open port answers true and stores its banners
   * under that port and no other, which panics when the map is nil.
   */
  function IsOpen(h: Option<map<int, seq<string>>>, host: string, port: int, net: Network): (r: Probe)
    ensures r == ProbePanicked(UnresolvedAddress(port)) <==> !Resolves(port, net)
    ensures r == ProbePanicked(NilMapWrite) <==> Resolves(port, net) && net.dial(port).Connected? && h.None?
    ensures r.ProbePanicked? ==> r.reason == UnresolvedAddress(port) || r.reason == NilMapWrite
    ensures r.Probed? ==> (r.open <==> net.dial(port).Connected?)
    ensures r.Probed? && !r.open ==> r.headers == h && (r.loggedAsError <==> LoggedAsError(net.dial(port).message))
    ensures r.Probed? && r.open ==>
              && h.Some? && r.headers.Some? && !r.loggedAsError
              && r.headers.value.Keys == h.value.Keys + {port}
              && r.headers.value[port] == GetHeaders(host, port, net.get).banners
              && (forall k :: k in h.value && k != port ==> r.headers.value[k] == h.value[k])
  {
    if !Resolves(port, net) then ProbePanicked(UnresolvedAddress(port))
    else match net.dial(port)
      case DialError(message) => Probed(false, h, LoggedAsError(message))
      case Connected =>
        match h
        case None => ProbePanicked(NilMapWrite)
        case Some(m) => Probed(true, Some(m[port := GetHeaders(host, port, net.get).banners]), false)
  }

  /** Whether probing `port` panics, given whether `Headers` is nil. */
  predicate ProbeFails(nilMap: bool, port: int, net: Network) {
    !Resolves(port, net) || (nilMap && net.dial(port).Connected?)
  }

  /** No port of `ports` makes its probe panic. */
  predicate NoProbeFails(nilMap: bool, ports: seq<int>, net: Network) {
    forall p :: p in ports ==> !ProbeFails(nilMap, p, net)
  }

  /** The panic of a failing probe: resolution comes before the map write. */
  function FailureReason(port: int, net: Network): PanicReason {
    if Resolves(port, net) then NilMapWrite else UnresolvedAddress(port)
  }

  /** The ports among `ports` that the network reports open. */
  ghost function OpenPorts(ports: seq<int>, net: Network): set<int> {
    set p | p in ports && net.dial(p).Connected?
  }

  /**
   * The sequential reading of the scan: probe each port in order with `IsOpen`,
   * threading `Headers` through, and stop at the first panic.
   */
  function RecordOpen(h: Option<map<int, seq<string>>>, host: string, ports: seq<int>, net: Network)
    : (r: Result<Option<map<int, seq<string>>>, PanicReason>)
    ensures r.Err? <==> !NoProbeFails(h.None?, ports, net)
    ensures r.Err? ==> exists p :: p in ports && ProbeFails(h.None?, p, net) && r.error == FailureReason(p, net)
    ensures r.Ok? ==> (r.value.None? <==> h.None?)
    ensures r.Ok? && h.Some? ==> r.value.value.Keys == h.value.Keys + OpenPorts(ports, net)
    ensures r.Ok? && h.Some? ==>
              forall p :: p in OpenPorts(ports, net) ==> r.value.value[p] == GetHeaders(host, p, net.get).banners
    ensures r.Ok? && h.Some? ==>
              forall k :: k in h.value && k !in OpenPorts(ports, net) ==> r.value.value[k] == h.value[k]
    decreases |ports|
  {
    if |ports| == 0 then Ok(h)
    else match IsOpen(h, host, ports[0], net)
      case ProbePanicked(reason) =>
        assert ProbeFails(h.None?, ports[0], net) && reason == FailureReason(ports[0], net);
        Err(reason)
      case Probed(_, h', _) =>
        assert h'.None? == h.None? && !ProbeFails(h.None?, ports[0], net);
        assert forall p :: p in ports <==> p == ports[0] || p in ports[1..];
        assert OpenPorts(ports, net) == OpenPorts(ports[..1], net) + OpenPorts(ports[1..], net) by {
          assert ports == ports[..1] + ports[1..];
        }
        RecordOpen(h', host, ports[1..], net)
  }

  /**
   * How a scan ends. `Blocked`: with a semaphore of size 0 every probe goroutine
   * waits forever on its first send, so `Scan` never returns.
   */
  datatype ScanOutcome = Completed(scanner: TCPScanner) | Panicked(reason: PanicReason) | Blocked

  /**
   * `Scan`: clamp the concurrency, size the semaphore, probe every expanded port.
   * A panic in any probe ends the whole program; which failing port's panic is
   * reported is left open, as it is among the goroutines.
   */
  function Scan(t: TCPScanner, cpuCount: int, net: Network): (o: ScanOutcome)
    requires cpuCount >= 1
    ensures o == Panicked(NegativeSemaphore) <==> ClampConcurrency(t.concurrency, cpuCount) < 0
    ensures o.Blocked? <==> ClampConcurrency(t.concurrency, cpuCount) == 0 && |ExpandAll(t.portRange)| > 0
    ensures o.Completed? <==>
              && (ClampConcurrency(t.concurrency, cpuCount) > 0
                  || (ClampConcurrency(t.concurrency, cpuCount) == 0 && ExpandAll(t.portRange) == []))
              && NoProbeFails(t.headers.None?, ExpandAll(t.portRange), net)
    ensures o.Panicked? && o.reason != NegativeSemaphore ==>
              exists p :: p in ExpandAll(t.portRange) && ProbeFails(t.headers.None?, p, net)
                          && o.reason == FailureReason(p, net)
    ensures o.Completed? ==>
              && o.scanner.concurrency == ClampConcurrency(t.concurrency, cpuCount)
              && o.scanner.host == t.host && o.scanner.portRange == t.portRange
              && o.scanner.timeout == t.timeout && o.scanner.showProgress == t.showProgress
    ensures o.Completed? ==> (o.scanner.headers.None? <==> t.headers.None?)
    ensures o.Completed? && t.headers.Some? ==>
              o.scanner.headers.value.Keys == t.headers.value.Keys + OpenPorts(ExpandAll(t.portRange), net)
    ensures o.Completed? && t.headers.Some? ==>
              forall p :: p in OpenPorts(ExpandAll(t.portRange), net) ==>
                o.scanner.headers.value[p] == GetHeaders(t.host, p, net.get).banners
    ensures o.Completed? && t.headers.Some? ==>
              forall k :: k in t.headers.value && k !in OpenPorts(ExpandAll(t.portRange), net) ==>
                o.scanner.headers.value[k] == t.headers.value[k]
  {
    var c := ClampConcurrency(t.concurrency, cpuCount);
    var ports := ExpandAll(t.portRange);
    if c < 0 then Panicked(NegativeSemaphore)
    else if c == 0 && |ports| > 0 then Blocked
    else match RecordOpen(t.headers, t.host, ports, net)
      case Err(reason) =>
        Panicked(reason)
      case Ok(h) => Completed(t.(concurrency := c, headers := h))
  }

  /** Every non-empty range lies within the port numbers `ResolveTCPAddr` accepts. */
  predicate ScannableRanges(rs: seq<Range>) {
    forall i :: 0 <= i < |rs| && rs[i].start < rs[i].stop ==> 0 <= rs[i].start && rs[i].stop <= MaxPort + 1
  }

  /**
   * Every visited port resolves exactly when every non-empty range is made of valid
   * ports and, if any port is visited at all, the host resolves.
   */
  lemma ResolvesAllPorts(rs: seq<Range>, net: Network)
    ensures (forall p :: p in ExpandAll(rs) ==> Resolves(p, net))
        <==> ScannableRanges(rs) && (net.hostResolves || ExpandAll(rs) == [])
  {
    var ports := ExpandAll(rs);
    if forall p :: p in ports ==> Resolves(p, net) {
      forall i | 0 <= i < |rs| && rs[i].start < rs[i].stop
        ensures 0 <= rs[i].start && rs[i].stop <= MaxPort + 1
      {
        assert InRanges(rs, rs[i].start) && InRanges(rs, rs[i].stop - 1);
        assert rs[i].start in ports && rs[i].stop - 1 in ports;
      }
      if ports != [] {
        assert Resolves(ports[0], net);
      }
    }
    if ScannableRanges(rs) && (net.hostResolves || ports == []) {
      forall p | p in ports
        ensures Resolves(p, net)
      {
        assert InRanges(rs, p);
      }
    }
  }

  /** With at least one worker and an allocated map, a range holding an invalid port makes the scan panic. */
  lemma InvalidPortPanics(t: TCPScanner, cpuCount: int, net: Network, q: int)
    requires cpuCount >= 1 && t.headers.Some? && ClampConcurrency(t.concurrency, cpuCount) >= 1
    requires InRanges(t.portRange, q) && !ValidPort(q)
    ensures Scan(t, cpuCount, net).Panicked? && Scan(t, cpuCount, net).reason.UnresolvedAddress?
  {
    var ports := ExpandAll(t.portRange);
    assert q in ports && ProbeFails(false, q, net);
  }

  /**
   * On a resolving host, a scan of one range whose only invalid port is its start panics
   * on that start port.
   */
  lemma OnlyStartFails(t: TCPScanner, cpuCount: int, net: Network, r: Range)
    requires cpuCount >= 1 && t.headers.Some? && ClampConcurrency(t.concurrency, cpuCount) >= 1
    requires t.portRange == [r] && r.start < r.stop && !ValidPort(r.start)
    requires net.hostResolves && forall q :: r.start < q < r.stop ==> ValidPort(q)
    ensures Scan(t, cpuCount, net) == Panicked(UnresolvedAddress(r.start))
  {
    InRangesSingle(r, r.start);
    InvalidPortPanics(t, cpuCount, net, r.start);
    AllocatedScanEnds(t, cpuCount, net);
    InRangesSingle(r, Scan(t, cpuCount, net).reason.port);
  }

  /** With at least one worker, a scan of one port on a non-nil map completes exactly when that port resolves. */
  lemma SinglePortScanEnds(t: TCPScanner, cpuCount: int, net: Network, p: int)
    requires cpuCount >= 1 && t.headers.Some? && ClampConcurrency(t.concurrency, cpuCount) >= 1
    requires ExpandAll(t.portRange) == [p]
    ensures Scan(t, cpuCount, net).Completed? <==> Resolves(p, net)
  {
    assert NoProbeFails(false, [p], net) <==> Resolves(p, net) by {
      assert p in [p];
    }
  }

  /**
   * With at least one worker and an allocated map a scan never blocks: it completes
   * exactly when every visited port resolves, and otherwise panics on a visited port
   * that does not.
   */
  lemma AllocatedScanEnds(t: TCPScanner, cpuCount: int, net: Network)
    requires cpuCount >= 1 && t.headers.Some?
    requires ClampConcurrency(t.concurrency, cpuCount) >= 1
    ensures Scan(t, cpuCount, net).Completed?
        <==> ScannableRanges(t.portRange) && (net.hostResolves || ExpandAll(t.portRange) == [])
    ensures Scan(t, cpuCount, net).Panicked? ==>
            var reason := Scan(t, cpuCount, net).reason;
            && reason.UnresolvedAddress?
            && reason.port in ExpandAll(t.portRange)
            && !Resolves(reason.port, net)
  {
    ResolvesAllPorts(t.portRange, net);
    assert forall q :: ProbeFails(false, q, net) <==> !Resolves(q, net);
  }

  /**
   * After a completed scan of a scanner whose map was allocated, a port is a key
   * exactly when it was one before or lies in a range and the network reports it
   * open; a new key holds that port's banners; closed ports are never added.
   */
  lemma ScanRecordsExactlyOpenPorts(t: TCPScanner, cpuCount: int, net: Network, p: int)
    requires cpuCount >= 1 && t.headers.Some?
    requires ClampConcurrency(t.concurrency, cpuCount) >= 1
    ensures Scan(t, cpuCount, net).Completed? ==>
            var h := Scan(t, cpuCount, net).scanner.headers;
            && h.Some?
            && (p in h.value <==> p in t.headers.value || (InRanges(t.portRange, p) && net.dial(p).Connected?))
            && (InRanges(t.portRange, p) && net.dial(p).Connected? ==> h.value[p] == GetHeaders(t.host, p, net.get).banners)
            && (!net.dial(p).Connected? && p in t.headers.value ==> h.value[p] == t.headers.value[p])
  {
    var ports := ExpandAll(t.portRange);
    assert p in OpenPorts(ports, net) <==> InRanges(t.portRange, p) && net.dial(p).Connected?;
  }
}
