# Telemetry gateway core, modelled in Dafny

This project models the decision logic of a small gRPC gateway. The gateway
reports the machine's network interfaces and its system time. It also writes
its own log lines to a file through a background queue.

- **Network interfaces** (`network_service.dfy`, module `NetworkService`).
  On Linux the gateway first asks NetworkManager over D-Bus. The collector
  walks the devices and skips any device whose name is empty or `lo`. It maps
  the numeric `NMDeviceState` through a fixed table and converts the speed
  from Mb/s to b/s. It then appends the IPv4 addresses and after them the IPv6
  addresses, keeping only non-blank strings found under `"address"`. If that
  answer is empty, or the platform is not Linux, the gateway returns the .NET
  runtime's enumeration, with loopback included and no filtering. An
  exception that escapes gives the empty list.
- **System time** (`system_service.dfy`, module `SystemService`).
  `timedate1`'s `TimeUSec` is used when it is non-zero. Its ISO text comes
  from `usec / 1000` milliseconds, with C#'s truncating division. A value of 0,
  a failed fetch (which `SafeAsync` turns into 0), a failed session, or a value
  `DateTimeOffset.FromUnixTimeMilliseconds` rejects all mean that D-Bus gave
  nothing. Then the runtime clock is used: the microseconds are the clock's
  whole milliseconds times 1000, and the text is rendered from the same reading.
- **File log sink** (`file_logger.dfy`, module `FileLogging`).
  `FileLoggerProvider` is a class. Its fields are the queue, the lines written
  to the file, and the `_disposed`, adding-completed and closed flags. It has
  `Enqueue`, a consumer step, `Consume` and `Dispose`. A value-level `Sink`
  state machine specifies each method. `FileLogger` adds the level filter and
  the tab-separated line format.

Supporting modules: `Wrappers` (`Option`), `DotNet` (the C# integer ranges,
truncating division, the tick model of `DateTimeOffset`, `Char.IsWhiteSpace`)
and `SafeInvoke` (`SafeAsync`, one model for the copy in each service).

Foreign calls become inputs:

- A NetworkManager device is a record of what each property fetch produced
  (`Fetch<T>`: `Got(v)` or `Threw`).
- An OS interface is a record of what the runtime reported for it. Its
  `ipFailsAt` field says after how many unicast addresses reading the IP
  properties throws; the inner loop of `GetRuntimeNetworkInterfaces` leaves
  at that index, as the source's catch block does.
- An exception that `SafeAsync` does not absorb is a fault flag on the input,
  placed where the source would raise it. These flags are `Device.proxyFails`,
  `IpConfig.proxyFails`, `OsInterface.readFails`, a `Threw` session, and
  `escapes` in `GetSystemTime`.
- The clock readings are parameters. The `"O"` formatter is an uninterpreted
  function parameter (`Formatter`).

Where the code and the design text differ, the model follows the code:

- The runtime enumeration is not exception-free. If `GetAllNetworkInterfaces`
  or an interface's attribute reads throw, the exception reaches the gateway's
  catch, which returns the empty list.
- When reading an interface's IP properties fails, the interface is still
  reported and keeps the addresses added before the failure. Its list is not
  emptied.
- The D-Bus time text is rendered at offset zero from a millisecond-truncated
  instant. The fallback text uses the local offset and full tick precision.
  Both stay within one millisecond of the microsecond field.

## Model

| member | source | states |
|---|---|---|
| `SafeInvoke.SafeAsync` | GATEWAY_Core/Services/NetworkServiceImpl.cs:203-213 | Never fails: the fetched value when the fetch returned, the absent default when it threw |
| `DotNet.TruncDiv1000` | GATEWAY_Core/Services/SystemServiceImpl.cs:93 | C# `usec / 1000` rounds toward zero: what is left over is under 1000 and has the sign of `usec` |
| `DotNet.ToUnixTimeMilliseconds` | GATEWAY_Core/Services/SystemServiceImpl.cs:46 | The whole milliseconds of a clock reading lie in .NET's range and at most 1 ms below the instant it denotes |
| `DotNet.FromUnixTimeMilliseconds` | GATEWAY_Core/Services/SystemServiceImpl.cs:93 | Defined exactly on .NET's accepted range (outside it the call throws); the result denotes `ms * 1000` µs at offset zero |
| `NetworkService.NmStateToString` | GATEWAY_Core/Services/NetworkServiceImpl.cs:192-201 | Each `NMDeviceState` code 100/50/40/30/20/10 gives its name and only that code does; every other code gives "unknown" |
| `NetworkService.BitsPerSecond` | GATEWAY_Core/Services/NetworkServiceImpl.cs:125 | The Mb/s value times 10^6 fits in a `long` (at most 4294967295·10^6) and divides back exactly to the Mb/s value |
| `NetworkService.AppendAddresses` | GATEWAY_Core/Services/NetworkServiceImpl.cs:163-169 | The loop over address data appends exactly the kept addresses, in entry order, behind what the list held |
| `NetworkService.AddConfigAddresses` | GATEWAY_Core/Services/NetworkServiceImpl.cs:155-171 | For one IP configuration: fails only when its proxy cannot be created; otherwise appends that configuration's addresses |
| `NetworkService.AddIpAddresses` | GATEWAY_Core/Services/NetworkServiceImpl.cs:153-190 | Succeeds exactly when neither configuration's proxy fails; the list then gains the IPv4 addresses followed by the IPv6 addresses |
| `NetworkService.InspectDevice` | GATEWAY_Core/Services/NetworkServiceImpl.cs:108-128 | One device's loop body: skip, the record to append, or an exception, as the device specification says |
| `NetworkService.CollectDevices` | GATEWAY_Core/Services/NetworkServiceImpl.cs:105-139 | The device loop returns what the collector specification gives, stopping at an exception with the records appended so far |
| `NetworkService.GetNetworkInterfacesFromNetworkManager` | GATEWAY_Core/Services/NetworkServiceImpl.cs:89-151 | The bus collector never throws: the empty list when connecting or enumerating fails, the device loop's records otherwise |
| `NetworkService.GetRuntimeNetworkInterfaces` | GATEWAY_Core/Services/NetworkServiceImpl.cs:55-87 | The runtime loop yields the runtime specification: one record per OS interface, or an escaping exception |
| `NetworkService.GetNetworkInterfaces` | GATEWAY_Core/Services/NetworkServiceImpl.cs:23-53 | The gateway method computes the gateway choice, returning the empty list from its catch block |
| `NetworkService.FirstException` | GATEWAY_Core/Services/NetworkServiceImpl.cs:105-141 | The index of the first device whose processing throws: no earlier device throws, and the one at the index does |
| `NetworkService.EmittedConcat` | GATEWAY_Core/Services/NetworkServiceImpl.cs:105-138 | The records of a concatenation of device lists are the records of each part, in order: output follows device-enumeration order |
| `NetworkService.CollectKeepsRecordsBeforeException` | GATEWAY_Core/Services/NetworkServiceImpl.cs:91-150 | The collector returns exactly the records of the devices before the first exception; those already appended are not cleared |
| `NetworkService.CollectWithoutException` | GATEWAY_Core/Services/NetworkServiceImpl.cs:105-139 | With no exception, every surviving device contributes its record, in device order |
| `NetworkService.EmittedHasEveryRecord` | GATEWAY_Core/Services/NetworkServiceImpl.cs:119-138 | Every device that passes the filter has its record among the records the devices yield, which is the output when no device throws |
| `NetworkService.CollectHasEveryRecordBeforeException` | GATEWAY_Core/Services/NetworkServiceImpl.cs:105-144 | Every device before the first exception that passes the filter has its record in the collector's actual output |
| `NetworkService.CollectNeverLoopback` | GATEWAY_Core/Services/NetworkServiceImpl.cs:112-117 | No bus record has an empty name or the name `lo`, and there are at most as many records as devices |
| `NetworkService.BusRecordFields` | GATEWAY_Core/Services/NetworkServiceImpl.cs:119-128 | A bus record comes from a device whose name was fetched. Description equals name; a missing hardware address becomes ""; status maps the state; speed is Mb/s·10^6; IPs are IPv4 then IPv6 |
| `NetworkService.FailedFetchDefaults` | GATEWAY_Core/Services/NetworkServiceImpl.cs:123-125 | A failed state fetch gives "unknown", a failed speed fetch 0 b/s, a failed hardware-address fetch "" |
| `NetworkService.AddressesConcat` | GATEWAY_Core/Services/NetworkServiceImpl.cs:163-169 | Address filtering distributes over concatenation: kept addresses stay in source order |
| `NetworkService.AddressesSound` | GATEWAY_Core/Services/NetworkServiceImpl.cs:165 | Every kept address is the non-blank string under "address" of some entry; there are no more addresses than entries |
| `NetworkService.AddressesComplete` | GATEWAY_Core/Services/NetworkServiceImpl.cs:165-167 | Every entry whose "address" is a non-null, non-whitespace string contributes that string |
| `NetworkService.EmptyConfigContributesNothing` | GATEWAY_Core/Services/NetworkServiceImpl.cs:155-161 | A null or root configuration path, or a failed AddressData fetch, adds no address |
| `NetworkService.RuntimeOneRecordPerInterface` | GATEWAY_Core/Services/NetworkServiceImpl.cs:59-84 | Runtime path: one record per OS interface, in order, loopback included. Description defaults to the name; MAC, status and speed are copied; the IPs are a prefix of the interface's addresses, all of them when reading does not fail |
| `NetworkService.IpReadFailureKeepsInterface` | GATEWAY_Core/Services/NetworkServiceImpl.cs:70-83 | When reading one interface's IP properties throws after k addresses, the interface is still reported with its other fields unchanged and exactly its first k addresses; no other record changes and the enumeration fails no more often |
| `NetworkService.GatewayChoice` | GATEWAY_Core/Services/NetworkServiceImpl.cs:31-46 | On Linux with a non-empty bus answer that answer is returned; off Linux, or with an empty or failed bus answer, the runtime result is |
| `NetworkService.GatewayResult` | GATEWAY_Core/Services/NetworkServiceImpl.cs:29-52 | The gateway returns the runtime enumeration, the empty list, or a Linux bus answer with no loopback or unnamed device and no more records than devices |
| `NetworkService.LoopbackSkippedExample` | GATEWAY_Core/Services/NetworkServiceImpl.cs:112-126 | Of devices `lo` and `eth0` (state 100, 1000 Mb/s), only eth0 is reported: "activated" at 1,000,000,000 b/s |
| `NetworkService.UnknownStateExample` | GATEWAY_Core/Services/NetworkServiceImpl.cs:200 | State code 999 maps to "unknown" |
| `SystemService.BuildSystemTime` | GATEWAY_Core/Services/SystemServiceImpl.cs:114-121 | The microseconds are stored unchanged and the text is rendered from the DateTimeOffset argument |
| `SystemService.BuildSystemTimeFieldsIndependent` | GATEWAY_Core/Services/SystemServiceImpl.cs:114-121 | The text does not depend on the microsecond argument, and the microseconds do not depend on the DateTimeOffset |
| `SystemService.GetSystemTimeFromDbus` | GATEWAY_Core/Services/SystemServiceImpl.cs:66-112 | A record exactly when connected, fetched, non-zero and `usec/1000` in .NET's range; it keeps `usec` and renders `usec/1000` ms |
| `SystemService.DbusZeroIsUnavailable` | GATEWAY_Core/Services/SystemServiceImpl.cs:83-89 | A zero value, a failed fetch (read as zero) or a failed session gives no D-Bus record (null) |
| `SystemService.DbusOutOfRangeIsUnavailable` | GATEWAY_Core/Services/SystemServiceImpl.cs:93-107 | Every value whose milliseconds .NET cannot represent gives no D-Bus record: the exception is caught and null returned |
| `SystemService.DbusMaxReadingIsUnavailable` | GATEWAY_Core/Services/SystemServiceImpl.cs:93-107 | The largest reading, 2^63−1 µs, is out of range and gives no D-Bus record |
| `SystemService.DbusRecordSameInstant` | GATEWAY_Core/Services/SystemServiceImpl.cs:93-94 | A D-Bus record keeps `usec` exactly, and its text is rendered from an instant less than 1000 µs away |
| `SystemService.FallbackTime` | GATEWAY_Core/Services/SystemServiceImpl.cs:45-46 | The fallback microseconds are divisible by 1000 and at most 1 ms below the clock reading; the text is rendered from that same reading |
| `SystemService.GetSystemTimeChoice` | GATEWAY_Core/Services/SystemServiceImpl.cs:28-63 | Linux with a D-Bus record gives that record; otherwise the runtime-clock record; an escaping exception gives a clock record of the same shape |
| `SystemService.GetSystemTime` | GATEWAY_Core/Services/SystemServiceImpl.cs:22-64 | On every path (D-Bus, runtime clock, catch block) the text is rendered from one instant and the microseconds lie within 1 ms of it; which path is taken is stated by `GetSystemTimeChoice` |
| `FileLogging.FormatLine` | GATEWAY_Core/Logging/FileLogger.cs:75-79 | The line ends with the message when there is no exception. With an exception it ends with a newline and the exception; its length counts four fields, three tabs and that suffix |
| `FileLogging.SplitAtTabJoin` | GATEWAY_Core/Logging/FileLogger.cs:75 | Splitting at the first tab undoes a tab join whose left part has no tab |
| `FileLogging.LineRoundTrip` | GATEWAY_Core/Logging/FileLogger.cs:75-79 | A line parses back to timestamp, level name, category and message (plus newline and exception when present), if timestamp and category have no tab |
| `FileLogging.ApplyIsFifo` | GATEWAY_Core/Logging/FileLogger.cs:28-52 | Each operation moves lines from the queue's front to the file or accepts one line at the back: written ++ queue grows only by accepted lines |
| `FileLogging.RunKeepsInv` | GATEWAY_Core/Logging/FileLogger.cs:44-52 | Every run keeps the flag order: adding completed implies disposed, closed implies adding completed |
| `FileLogging.RunIsFifo` | GATEWAY_Core/Logging/FileLogger.cs:28-42 | After any run, written ++ queue equals the initial written ++ queue followed by the accepted lines in acceptance order (FIFO) |
| `FileLogging.RunOnlyAppends` | GATEWAY_Core/Logging/FileLogger.cs:36-42 | Written lines are never changed or removed: the file only grows |
| `FileLogging.NothingAcceptedAfterDispose` | GATEWAY_Core/Logging/FileLogger.cs:28-34 | Once disposed, no later operation accepts a line, the sink stays disposed and nothing new reaches the queue or file |
| `FileLogging.DisposeIsIdempotent` | GATEWAY_Core/Logging/FileLogger.cs:46 | A second Dispose changes nothing |
| `FileLogging.DisposeDrainsWithinBudget` | GATEWAY_Core/Logging/FileLogger.cs:47-51 | If the consumer finishes within Dispose's wait, every queued line is written and the queue is empty |
| `FileLogging.EnqueuesAcceptAll` | GATEWAY_Core/Logging/FileLogger.cs:28-34 | On an open sink, consecutive Enqueues accept every line, in order, and leave the sink open |
| `FileLogging.EnqueueAllThenDispose` | GATEWAY_Core/Logging/FileLogger.cs:28-52 | Enqueuing N lines and then disposing leaves exactly those N lines in the file, in order, when the consumer finishes in time |
| `FileLogging.FileLoggerProvider.constructor` | GATEWAY_Core/Logging/FileLogger.cs:14-24 | A new provider is open, with an empty queue and file, and keeps its minimum level |
| `FileLogging.FileLoggerProvider.CreateLogger` | GATEWAY_Core/Logging/FileLogger.cs:26 | A fresh logger for the category, sharing this provider and its minimum level |
| `FileLogging.FileLoggerProvider.Enqueue` | GATEWAY_Core/Logging/FileLogger.cs:28-34 | Disposed: nothing changes. Otherwise exactly one line joins the back of the queue. The invariant shows the queue is never adding-completed there |
| `FileLogging.FileLoggerProvider.ConsumeStep` | GATEWAY_Core/Logging/FileLogger.cs:38-41 | While open, the front line moves from the queue to the file; the line is returned; the invariant is kept |
| `FileLogging.FileLoggerProvider.Consume` | GATEWAY_Core/Logging/FileLogger.cs:36-42 | While open, every queued line is written in queue order and the queue ends empty; once closed, nothing changes |
| `FileLogging.FileLoggerProvider.Dispose` | GATEWAY_Core/Logging/FileLogger.cs:44-52 | Sets the flags in order, lets the consumer write up to `budget` lines, then closes; a second call changes nothing |
| `FileLogging.FileLogger.constructor` | GATEWAY_Core/Logging/FileLogger.cs:60-65 | Keeps the category, the provider and the minimum level |
| `FileLogging.FileLogger.IsEnabled` | GATEWAY_Core/Logging/FileLogger.cs:69 | A level is enabled exactly when its value is at least the minimum level's |
| `FileLogging.FileLogger.Log` | GATEWAY_Core/Logging/FileLogger.cs:71-81 | A disabled level leaves the provider unchanged; an enabled one enqueues exactly the formatted line |
| `FileLogging.EnabledIsUpwardClosed` | GATEWAY_Core/Logging/FileLogger.cs:69 | A level above an enabled level is enabled, and the minimum level itself is enabled |

## Left out

- D-Bus connections, proxy creation and property getters (`ConnectAsync`, `CreateProxy`, `GetDevicesAsync`, `Interface`, `TimeUSec`, …) are foreign calls. They are inputs: `Fetch` values, and fault flags where proxy creation may throw.
- `NetworkInterface.GetAllNetworkInterfaces`, `GetPhysicalAddress`, `GetIPProperties`, `OperationalStatus.ToString()` and `RuntimeInformation` are OS APIs. Their results are inputs; `IsOSPlatform(Linux)` is the `isLinux` parameter.
- `DateTimeOffset.Now` and the `"O"` formatter are a clock and a formatter. The clock readings are parameters, and the formatter is an uninterpreted function parameter.
- The `NmLock`/`TimeLock` semaphores serialise concurrent requests. The model is sequential, so they are not modelled.
- The logger's background thread, `BlockingCollection` blocking, the 2-second `Join`, `StreamWriter`, `FileStream` and `Directory.CreateDirectory` are threads, timeouts and file I/O. The consumer is explicit steps, the file is the `written` sequence, and the wait is `Dispose`'s `budget`.
- Threads interleaving inside `Enqueue` and `Dispose` are not modelled. The model is sequential, so it does not show what happens when `CompleteAdding` runs between the `_disposed` test and `Add`.
- The services' `_logger.Log*` calls are side effects with no influence on results. The model takes them not to throw. In `GetSystemTime` the `escapes` flag stands for any exception reaching the catch block.
- `NICInfo` and `NetworkInterfaceList` are protobuf objects filled in place. They are values here: the IP list and the interface list are sequences threaded through the loops. These objects are never shared, so this loses no aliasing.
- `NmStateToString` takes a `uint?`, but its argument is never null because `SafeAsync<uint>` returns 0 on failure. The model takes a `UInt32`.
- A failed `Ip4Config`/`Ip6Config` fetch yields `default(ObjectPath)`. That struct value passes the source's `!= null` and `!= ObjectPath.Root` tests, so the source goes on to `CreateProxy` and `AddressData` with it. The model assumes these calls neither throw out of the method nor yield addresses: a failed path fetch contributes nothing, and the path's `proxyFails` flag is not consulted.
- `FileLogger.BeginScope` and `NullScope` have no effect. The `eventId`, `state` and `formatter` arguments of `Log` are reduced to the message the formatter produced.
- `GATEWAY_Core/Program.cs` and `GATEWAY_Launcher/Program.cs` are host, DI, gRPC and Razor wiring only. They are not part of this model.
