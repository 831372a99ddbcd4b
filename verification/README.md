# GoTCPScanner, modelled in Dafny

GoTCPScanner is a TCP connect-scanner written in Go. It probes every port of one or more
`start-stop` ranges on a host. For each port that accepts a connection, it records the values of
the HTTP `Server` response header as that port's banners. It has two front ends:
- a command line (`consoleInput`);
- a hosted-function handler fed a JSON request (`HandleRequest`).

This project models the sequential logic around the network calls:

- **Go library behaviour the code relies on** (`results.dfy`, `goint.dfy`, `gostrings.dfy`, `gostrconv.dfy`):
  - `strings.TrimSpace`, `strings.Split` on `-` and `strings.Contains`;
  - the blank-host test;
  - `strconv.Atoi`, and the decimal rendering of `%d`/`%v`;
  - 64-bit wrap-around of `int64` products.
- **The scanner** (`scanner.dfy`, module `Scanner`): the `TCPScanner` record and its setters.
  - The range expansion `for j := start; j < stop; j++` and `getTotalPortCount`.
  - The concurrency clamp at the top of `Scan`.
  - The classification of dial errors, and the `Server`-header filter of `getHeaders` with its https retry.
  - `Scan`, read as a sequential fold over the expanded ports.
- **The range flag** (`portflags.dfy`, module `PortFlags`): `portRangeFlag.Set` parses `start-stop`, and `portRangeFlag.String` renders the collected pairs.
- **The front ends** (`requests.dfy`, module `Requests`): the validation and normalisation done by `HandleRequest` and `consoleInput`, up to the scan.

The network is an oracle datatype, `Network(hostResolves, dial, get)`:
- `hostResolves` says whether the host name resolves to an IPv4 address. `net.ResolveTCPAddr` then accepts exactly the ports 0–65535 (`Resolves`);
- `dial(port)` says whether connecting to that port of the scanned host succeeds, or gives the error message;
- `get(url)` gives the response's header map, or the error message of an HTTP GET.

`runtime.NumCPU()` is the parameter `cpuCount`, which must be at least 1. Go's `panic` calls are
`Err` values. A nil `Headers` map is `None`.

`Scan` has three outcomes. `Completed` carries the scanner after the scan. `Panicked` covers three cases:
- `make(chan struct{}, n)` with a negative `n`;
- an address that `net.ResolveTCPAddr` rejects, after which `IsOpen` calls `zap.S().Panic`;
- a write into a nil `Headers` map.

`Blocked` covers a semaphore of size 0 with at least one port to scan. Every probe goroutine then
waits forever on its first send, so `Scan` never returns.

Assumptions about library code that is not part of this model:
- `strconv.Atoi` accepts an optional `+` or `-` followed by one or more decimal digits, if the value fits a 64-bit `int`. Its two errors (syntax, range) are one `None`.
- `stringutils.IsBlank` holds when the string is empty after `strings.TrimSpace`.
- White space is what Go's `unicode.IsSpace` accepts.
- Response header keys arrive in canonical form, as `net/http` delivers them, so a server's `server:` line is found under `Server`.

Behaviours of the code worth stating plainly:
- The concurrency clamp is `min(requested, runtime.NumCPU())`. Despite the variable name `ulimitCurr` and the warning text about "ulimit size", no file-descriptor limit or lower bound is involved.
- The https retry happens only when the first error message contains `http: server gave HTTP response to HTTPS client`.
- Ranges are half-open: the stop port is never scanned.
- A port outside 0–65535, or a host that does not resolve, makes `IsOpen` panic, so the whole process ends and no result is returned.

## Model

| member | source | states |
|---|---|---|
| GoInt.Wrap64 | datastructures/TCPScanner.go:31 | the 64-bit product lies in int64 range, agrees with the exact product modulo 2^64, and is the exact product when that fits |
| GoStrings.TrimSpace | main.go:73 | the trimmed flag text neither starts nor ends with white space and sits in the input with only white space around it |
| GoStrings.PaddedCoreUnique | main.go:73 | a text has at most one core with white space only around it and no white space at either end |
| GoStrings.TrimSpacePadded | main.go:73 | trimming white space around a core that has no white space at either end gives back exactly that core |
| GoStrings.IsBlankIffAllSpace | main.go:103 | a host is blank exactly when every character of it is white space |
| GoStrings.Split | main.go:74 | the pieces contain no dash and joining them with dashes rebuilds the input |
| GoStrings.SplitJoin | main.go:74 | splitting undoes joining for dash-free pieces, so `a-b` splits into exactly `a` and `b` |
| GoStrings.SplitLength | main.go:74-77 | the split has one more piece than the text has dashes, so two pieces means exactly one dash |
| GoStrings.Contains | datastructures/TCPScanner.go:86 | the substring test holds exactly when the pattern occurs at some index of the message |
| GoStrconv.Atoi | main.go:78-83 | a parsed port number fits 64 bits |
| GoStrconv.AtoiSyntax | main.go:78-83 | `Atoi` accepts a text exactly when it is an optional sign followed by at least one decimal digit and nothing else, and its signed value fits 64 bits; the result is that signed value |
| GoStrconv.AtoiExamples | main.go:78-83 | leading zeros and an explicit sign are accepted (`+080` is 80, `-0` is 0, `007` is 7); a lone sign, the empty text and a trailing sign are rejected |
| GoStrconv.FormatInt | main.go:27 | `%d` text is non-empty, starts with `-` exactly for negative values, and is otherwise digits |
| GoStrconv.AtoiFormatInt | main.go:78-83 | `Atoi` reads back every 64-bit integer from its decimal rendering |
| Scanner.SetHost | datastructures/TCPScanner.go:25-28 | Host is set, Headers becomes a fresh empty non-nil map, and no other field changes |
| Scanner.SetTimeout | datastructures/TCPScanner.go:30-32 | the stored duration is ms × 1,000,000 ns whenever that fits int64, wraps modulo 2^64 otherwise, and no other field changes |
| Scanner.SetTimeoutWraps | datastructures/TCPScanner.go:30-32 | one millisecond past the exact range the stored timeout is negative |
| Scanner.AddPortRange | datastructures/TCPScanner.go:34-36 | exactly one pair [start, stop] is appended at the end, earlier pairs and all other fields unchanged |
| Scanner.AddPortRangeExtendsScan | datastructures/TCPScanner.go:34-36 | appending a range appends its ports to the scan order and adds stop − start to the port total |
| Scanner.Expand | datastructures/TCPScanner.go:52 | a range yields start, start+1, …, stop−1 in order, and nothing when stop ≤ start |
| Scanner.InExpand | datastructures/TCPScanner.go:52 | a port is visited for a range exactly when start ≤ port < stop, so the stop port is excluded |
| Scanner.InRangesSingle | datastructures/TCPScanner.go:51-52 | a one-range list contains a port exactly when start ≤ port < stop |
| Scanner.ExpandAll | datastructures/TCPScanner.go:51-52 | a port is visited exactly when some range of the list contains it |
| Scanner.ExpandAllAppend | datastructures/TCPScanner.go:51 | ranges are processed in list order: a range added last contributes its ports last |
| Scanner.TotalPortCount | datastructures/TCPScanner.go:123-128 | the port total never exceeds the number of ports visited, and equals it exactly when every range has start ≤ stop |
| Scanner.TotalPortCountOfReversedRange | datastructures/TCPScanner.go:123-128 | a reversed range [5, 3] gives a total of −2 while the scan visits no port |
| Scanner.ClampConcurrency | datastructures/TCPScanner.go:40-44 | the clamped concurrency is the smaller of the request and the CPU count, so a request at or below the CPU count is untouched and nothing raises it |
| Scanner.LoggedAsError | datastructures/TCPScanner.go:85-88 | a dial failure is logged as an error exactly when its message contains neither "connect: connection refused" nor "i/o timeout" |
| Scanner.CollectServerHeaders | datastructures/TCPScanner.go:113-119 | whatever order the header keys are visited in, the result is exactly the values under "Server", in order, and empty when the key is absent |
| Scanner.GetHeaders | datastructures/TCPScanner.go:96-121 | the first request is always the http URL; a second, https, request happens exactly when the first fails with the HTTPS-mismatch message; the banners are the Server values of the last response, none after a failure |
| Scanner.IsOpen | datastructures/TCPScanner.go:77-94 | one probe panics on an unresolvable address exactly when the host does not resolve or the port is outside 0–65535, and on a nil map exactly when the address resolves, the dial connects and the map is nil; otherwise the port is open exactly when the dial connects; an open port's entry becomes its fetched banners with every other entry kept; a closed port leaves the map as it was and is logged as an error exactly when its dial message contains neither `connect: connection refused` nor `i/o timeout` |
| Scanner.RecordOpen | datastructures/TCPScanner.go:51-94 | probing a port list panics exactly when some port's probe fails, and then with that port's reason; otherwise the map stays nil or non-nil, its keys are the prior keys plus exactly the open ports, each new value is that port's banners, and entries of ports not found open are untouched |
| Scanner.Scan | datastructures/TCPScanner.go:38-75 | a negative clamped concurrency panics; 0 with ports to scan blocks; otherwise the scan completes exactly when no port's probe fails, and a panic names a failing scanned port's reason; on completion the concurrency is min(requested, cpuCount), other settings are kept, and keys = prior keys plus the open ports, each open port's value is its banners, and other entries are kept |
| Scanner.ResolvesAllPorts | datastructures/TCPScanner.go:82-83 | every scanned port resolves exactly when each non-empty range lies within 0–65535 and the host resolves, or no port is scanned at all |
| Scanner.InvalidPortPanics | datastructures/TCPScanner.go:82-83 | with at least one worker and an allocated map, a scan whose ranges contain a port outside 0–65535 panics on address resolution |
| Scanner.OnlyStartFails | datastructures/TCPScanner.go:82-83 | with at least one worker and an allocated map on a resolving host, a single range whose only invalid port is its start panics on resolving exactly that start port |
| Scanner.SinglePortScanEnds | datastructures/TCPScanner.go:38-94 | with at least one worker and an allocated map, a scan of exactly one port completes exactly when that port is valid and the host resolves |
| Scanner.AllocatedScanEnds | datastructures/TCPScanner.go:38-94 | with at least one worker and an allocated map, the scan completes exactly when all ranges lie within 0–65535 and the host resolves (or nothing is scanned); otherwise it panics on resolving a scanned port that does not resolve |
| Scanner.ScanRecordsExactlyOpenPorts | datastructures/TCPScanner.go:51-67 | after a completed scan with at least one worker and an allocated map, a port is a key exactly when it was before or a range contains it and it is open; closed ports never enter; new values are the port's banners; old entries of closed ports are kept |
| PortFlags.Set | main.go:70-89 | success appends exactly one pair with start ≤ stop, both 64-bit, and keeps earlier entries; any text without exactly one dash after trimming is rejected |
| PortFlags.SetAcceptsRangeText | main.go:70-89 | a trimmed text `a-b` with dash-free integer sides and start ≤ stop is accepted and appends [start, stop] |
| PortFlags.SetAcceptsOnlyRangeText | main.go:73-86 | every accepted text trims to `a-b` with dash-free integer sides and start ≤ stop |
| PortFlags.SetRoundTrip | main.go:70-89 | a white-space-padded `start-stop` written in decimal, with 0 ≤ start ≤ stop, appends exactly [start, stop], including the empty range start == stop |
| PortFlags.SetRejectsReversedText | main.go:84-86 | a trimmed text `a-b` with dash-free integer sides whose stop is below its start is rejected, naming both numbers |
| PortFlags.SetRejectsReversed | main.go:84-86 | the decimal text `start-stop` of a range with a non-negative stop below its start is rejected with the stop-before-start panic |
| PortFlags.NegativeRangeTextDashes | main.go:73-77 | the text of a range with a negative start, once trimmed, holds at least two dashes |
| PortFlags.SetRejectsNegativeStart | main.go:73-77 | a negative start adds a third dash-separated part, so such a range is always rejected |
| PortFlags.String | main.go:24-30 | the rendering is empty exactly when no range has been added |
| PortFlags.StringAppend | main.go:26-28 | the rendering of a concatenation is the concatenation of renderings, in order |
| PortFlags.SetExtendsString | main.go:24-30 | after `Set` accepts a text, the rendering gains the new pair's `[start stop]` at its end |
| PortFlags.StringRoundTrip | main.go:24-30 | the `[start stop]` renderings can be read back into the exact list of pairs, so the rendering loses no information |
| Requests.AtLeastOne | main.go:55-57 | a concurrency below 1 is raised to 1 and any other value is kept |
| Requests.PrepareRequest | main.go:40-62 | "port(s) not set" exactly when neither port nor ports is given; "set only port or ports" exactly when both are; otherwise a single port p becomes [[0, p]], ports are used verbatim, concurrency is raised to at least 1, ShowProgress is false, Headers is empty and the timeout is converted |
| Requests.SinglePortRequestSkipsPort | main.go:50-51 | a single-port request scans exactly the ports 0 … p−1, never p itself |
| Requests.HandleRequest | main.go:40-68 | "port(s) not set" and "set only port or ports" are returned exactly in their cases; a valid request crashes exactly when at least one port is scanned and either some scanned port is outside 0–65535 or the host does not resolve, and then on resolving such a port; otherwise it completes with concurrency between 1 and the CPU count, the result map holding exactly the requested ports found open, each with its fetched banners, and host, port ranges, timeout and ShowProgress as prepared from the request |
| Requests.ConsoleInput | main.go:92-130 | a blank host, neither --port nor --ports, and both at once are rejected, each exactly in its case; a single port p becomes [[-1, p]], ranges are copied in order, thread count kept, ShowProgress true |
| Requests.DefaultArgsRejected | main.go:95-108 | with every flag at its default, the command line refuses to start for lack of a port |
| Requests.ConsoleSinglePortSkipsPort | main.go:116-117 | `--port p` scans exactly −1 … p−1, starting below every TCP port and never reaching p |
| Requests.ConsoleSinglePortPanics | main.go:116-117 | with at least one thread, every accepted `--port p` with p ≥ 0 crashes in its scan on address resolution; when the host resolves and p ≤ 65536, the failing port is −1 |
| Requests.ConsoleNonPositiveThreadsStopScan | main.go:124 | an accepted command line with a negative thread count panics in its scan, and with 0 threads and at least one port its scan blocks |
| Requests.ZeroThreadsExample | main.go:97 | `--port 81 --thread 0` is accepted and its scan blocks forever |
| Requests.SinglePortRange | main.go:50-51 | the intended single-port range visits that port and no other |
| Requests.PrepareRequestIntended | main.go:40-62 | the corrected handler rejects the same requests and makes a single-port request scan exactly that port |
| Requests.ConsoleInputIntended | main.go:92-130 | the corrected command line rejects the same inputs, scans exactly the given single port or the given ranges, raises the thread count to at least 1, and starts from an empty map |
| Requests.ConsoleIntendedScanEnds | main.go:92-130 | the corrected command line's scan never blocks or panics on its semaphore, and a single `--port p` scan completes exactly when p is a valid port of a resolvable host |

## Left out

- Goroutines, the `sync.WaitGroup` and the buffered-channel semaphore of `Scan`. The scan is a sequential fold. The unsynchronised write to `Headers` from many goroutines is a data race that a sequential model cannot represent.
- `net.ResolveTCPAddr` is modelled by its port check (0–65535) and one oracle flag for whether the host name resolves. Name lookup itself, and a host that resolves for some ports but not others, are not modelled. The text of the resolution error is not carried.
- `net.DialTimeout` and `http.Get` are oracle functions. The missing time bound on the banner fetch is therefore not visible.
- `runtime.NumCPU` is the parameter `cpuCount`.
- The progress bar, and the zap logging including `initZapLog`. Only whether a dial failure is logged at error severity is modelled. The informational logs of `getHeaders` are not.
- `flag` registration, `flag.Parse`, `os.Getenv`, `lambda.Start` and `json.Marshal`. `ConsoleInput` starts from parsed flag values, and `HandleRequest` from a decoded request.
- Requests.PrepareRequest: each JSON `ports` entry is a pair. In the code, an inner array with fewer than two numbers makes `Scan` panic on an index. An inner array with more than two numbers has the extras ignored. JSON decoding is not part of this model.
- Requests.HandleRequest: returns the scanner, not its JSON text followed by a newline.
- Scanner.GetHeaders: a nil slice and an empty slice are both the empty sequence, so their JSON forms `null` and `[]` are not told apart.
- Scanner.TotalPortCount: sums with unbounded integers. The 64-bit wrap of `count +=` needs ranges spanning more than 2^63 ports, so it is not modelled.
- Scanner.Scan: when several ports fail, the goroutines race, so which panic ends the process is not fixed by the code. The contract only says the reason belongs to some failing scanned port. The effect of a negative progress-bar total is not modelled. Go integers other than the `SetTimeout` product are unbounded in this model. Loop counters cannot overflow, because `j < stop` bounds them.
- GoStrconv.Atoi: syntax errors and range errors are one `None`. The error text that `Set` panics with is not modelled.
- Requests.ConsoleInput: the three rejections are error values without the texts `consoleInput` panics with.

## Findings

| source | as written | input that shows it | evidently intended | confidence | as-written member | corrected member |
|---|---|---|---|---|---|---|
| main.go:50-51 | a single `port` p becomes the range [0, p], and the half-open loop scans 0 … p−1 | request `{"host": "h", "port": 80}` scans ports 0 to 79 and never port 80 | scan exactly port p | medium, not executed | Requests.SinglePortRequestSkipsPort | Requests.PrepareRequestIntended |
| main.go:116-117 | `--port p` becomes the range [−1, p]; its first port −1 is rejected by `net.ResolveTCPAddr`, and `zap.S().Panic` at datastructures/TCPScanner.go:82-83 ends the process | `--port 81 --thread 1` panics on port −1 and reports nothing; the range would also never reach port 81 | scan exactly port p (the flag's help reads "Single port to scan") | high, not executed | Requests.ConsoleSinglePortPanics | Requests.ConsoleIntendedScanEnds |
| main.go:124 | `--thread` is passed on unchanged, and `Scan` only ever lowers it | `--port 81 --thread 0`: the semaphore has size 0, so every probe blocks and `Scan` never returns; `--thread -1` panics in `make` | raise the thread count to at least 1, as `HandleRequest` does at main.go:55-57 | high, not executed | Requests.ZeroThreadsExample | Requests.ConsoleIntendedScanEnds |
