# perception-network-status, modelled in Dafny

This project models the decision logic of perception-network-status. The
system is a Windows network monitor embedded in a Node host. It has two
variants:

- The Rust monitor (`src/`) runs a background worker thread. The worker
  watches NLM connectivity through COM events and WLAN signal quality through
  WLAN notifications, and runs a periodic ICMP/TCP quality prober. Its
  message loop handles two private thread messages, `WM_USER+107` for network
  status and `WM_USER+108` for WiFi signal. Only the second is ever posted by
  the Rust code: the WLAN watcher calls `send_wlan_status_message`
  (src/wlan.rs:69, :118, :127). Nothing calls `send_network_status_message`
  (src/messages.rs:13); the network watcher reports its status to the host
  directly (src/network.rs:30, :61). The model keeps the status message and
  its handler, and `Monitor.StatusReachesLoop` covers a path no Rust caller
  takes.
- The older native C++ monitor (`native/`) does the same through a COM event
  sink, a WLAN callback with edge-triggered hysteresis and a main-thread
  message loop.

Every Win32, COM, WLAN, ICMP and IP-Helper call is a parameter. The model takes:

- status codes;
- `Option` query results;
- sequences of echo outcomes;
- NLM connectivity bitmasks;
- the returns of `GetMessageW`.

Process-wide globals become immutable state records (`SignalContext`,
`NetworkState`, `WlanState`, `Supervisor`, `LoopState`, `Sink`). Each
operation is a pure transition function over them, and lemmas relate most
operations to a partner:

- a reference definition: `WeakAfter`, the recursive `Jitter`, the Rust
  hysteresis for the native one;
- an inverse: message encode/decode, 16-bit packing;
- or an invariant it keeps: threshold order, refcount arithmetic, report
  alternation.

A few leaf operations have a contract that pins their result completely and
no partner: `Wlan.FirstInterface`, `Wlan.QueryInterfaceSignal`,
`Utils.WcharToUtf8` and `EventSink.HandleIgnoredEvent`.

Modules follow the source files:

| module | models |
|---|---|
| `Base` | shared integer widths, `Option`, 16-bit halves |
| `Nlm` | `NLM_CONNECTIVITY` flags |
| `Messages` | `src/messages.rs` |
| `Network` | `src/network.rs` |
| `Wlan` | `src/wlan.rs` |
| `NetworkQuality` | `src/network_quality.rs` |
| `Monitor` | `src/monitor.rs` |
| `NativeConnectivity` and `NativeMonitor` | `native/NetworkMonitor.cpp` |
| `Utils` | `native/Utils.cpp` |
| `EventSink` | `native/CNetworkListManagerEvents.cpp` |

Integers follow the source's widths:

- `u32`, `i32`, `usize` and `isize` are subset types, and `NLM_CONNECTIVITY` is a `bv32`.
- The `as u32` / `as i32` truncations in the message loop are written out modulo 2^32.
- The `f32` percentages are exact reals, defined by the identity `percent * total == part * 100`.

Three behaviours are easy to misread from the names and comments around them; the model follows what the code does:

- The quality prober pings the literal `8.8.8.8`
  (src/network_quality.rs). It has no hostname resolution and no
  TCP-handshake fallback.
- The TCP retransmission percentage is read from the cumulative counters
  since boot, with no baseline or delta (`NetworkQuality.QueryTcpStats`).
- The resolved recover threshold is bumped to exactly `drop + 5` only when it
  does not exceed drop. Otherwise it is kept as configured, so the gap can be
  smaller than 5 (`Wlan.ResolveSignalThresholds`).

## Model

| member | source | states |
|---|---|---|
| Base.SplitPack | src/wlan.rs:206-207 | masking the low 16 bits and shifting out the high 16 bits of a packed word gives back both halves |
| Base.PackSplit | src/wlan.rs:206-207 | every 32-bit configuration word is exactly the packing of its two 16-bit halves, so no bit is lost by the unpacking |
| Nlm.HasInternetIsMask | src/network.rs:88-89 | "IPv4-internet bit set or IPv6-internet bit set" is the same as a non-zero AND with the combined mask 0x0440 |
| Nlm.LocalOnlyIsNotInternet | native/NetworkMonitor.cpp:64-74 | connectivity made only of no-traffic, subnet and local-network flags has no internet bit |
| Messages.MessageIdsDistinct | src/messages.rs:8-10 | the private ids are WM_USER+107 and WM_USER+108, differ from each other and from WM_QUIT |
| Messages.WordToU32 | src/monitor.rs:83 | `wParam as u32` keeps every value below 2^32 and otherwise agrees with it modulo 2^32 |
| Messages.WordToI32 | src/monitor.rs:88 | `lParam as i32` keeps every value in the i32 range and otherwise agrees with it modulo 2^32 |
| Messages.WlanStatusRoundTrip | src/messages.rs:43-50 | decoding the posted WiFi message gives back exactly the quality and RSSI that were encoded, for every u32 quality and i32 RSSI |
| Messages.WlanStatusRoundTripBack | src/monitor.rs:87-89 | a WiFi message whose words are in range is re-encoded to itself from its decoding |
| Messages.NetworkStatusRoundTrip | src/messages.rs:20-27 | the posted network message carries the status in wParam (read back unchanged by the loop) and 0 in lParam |
| Messages.Send | src/messages.rs:14-32 | thread id 0 means nothing is posted; otherwise the message goes to that thread and is delivered exactly when the post is accepted, a failed post being final |
| Messages.SendNetworkStatusMessage | src/messages.rs:13-33 | refused with thread id 0; otherwise posts id 107 with wParam = status and lParam = 0 to the monitor thread, with no retry on failure |
| Messages.SendWlanStatusMessage | src/messages.rs:36-56 | refused with thread id 0; otherwise one post of id 108 to the monitor thread with wParam = quality and lParam = rssi, which decodes back to (quality, rssi) |
| Network.ConnectivityToStatus | src/network.rs:87-91 | status is 1 exactly when the IPv4- or IPv6-internet bit is set, 0 otherwise, and never anything else |
| Network.LocalOnlyIsStatusZero | src/network.rs:87-91 | local-network-only connectivity maps to status 0 |
| Network.ConnectivityChanged | src/network.rs:18-33 | the stored flag becomes "has internet"; a report is emitted exactly when the flag changed, and it carries the new status |
| Network.RepeatedNotificationReportsOnce | src/network.rs:23-31 | the same notification delivered twice in a row reports at most once: the second leaves the flag and reports nothing |
| Network.ReportsAlternate | src/network.rs:18-33 | over any run of notifications, reports are 0/1, the first differs from the initial status, consecutive reports differ, the last equals the final flag, and no report means the flag is unchanged |
| Network.InitializeNetworkMonitor | src/network.rs:37-65 | any failure up to Advise changes nothing and reports nothing; on success all handles and the cookie are kept, a failed GetConnectivity counts as 0, the flag is set to status != 0 and only status 0 is reported |
| Network.CleanupNetworkMonitor | src/network.rs:68-84 | always clears the flag, every handle and the cookie; Unadvise is attempted exactly with a connection point and non-zero cookie, and its failure is only logged |
| Network.CleanupIdempotent | src/network.rs:68-84 | a second cleanup leaves the released state and attempts no Unadvise |
| Network.InitThenCleanup | src/network.rs:37-84 | after a successful start, cleanup attempts Unadvise exactly when the cookie is non-zero and always ends released |
| Wlan.UpdateSignalState | src/wlan.rs:183-201 | quality at or below drop makes the signal weak; above drop and at or above recover makes it strong; strictly between leaves it unchanged; the quality is recorded and both thresholds kept |
| Wlan.UpdateIdempotent | src/wlan.rs:183-192 | applying the same quality twice gives the same state as applying it once |
| Wlan.UpdatePreservesThresholds | src/wlan.rs:183-192 | the threshold order drop < recover survives every update |
| Wlan.ApplyQualitiesSnoc | src/wlan.rs:183-192 | feeding a run of readings then one more is the update of the run's result with that reading |
| Wlan.ApplyQualitiesIsWeakAfter | src/wlan.rs:183-192 | after a run of readings the flag is fixed by the last reading outside the dead zone (initial flag if none), the last reading is recorded and thresholds are unchanged |
| Wlan.ResolveSignalThresholds | src/wlan.rs:204-221 | drop is the low 16 bits, or 30 when they are 0; the configured recover (high 16 bits, or 40 when they are 0) is kept when above drop and otherwise becomes exactly drop + 5; so always drop < recover, with drop in 1..65535 |
| Wlan.ResolveDefaults | src/wlan.rs:18-19 | an all-zero configuration resolves to (30, 40) |
| Wlan.ResolveKeepsOrderedPair | src/wlan.rs:206-220 | a configured pair with 0 < drop < recover is used as given, so the gap may be below 5 |
| Wlan.QueryInterfaceSignal | src/wlan.rs:149-180 | a reading exists exactly when the query succeeds with data, and it is (signal quality, 0): the RSSI is always 0 |
| Wlan.WlanNotificationCallback | src/wlan.rs:99-129 | null data or context and non-MSM sources do nothing; disconnect resets quality and weakness and sends (0, 0) without querying; connect and quality change query; when the query answers, the queried (quality, rssi) is sent and the quality is fed to the hysteresis, otherwise nothing changes; other codes do nothing |
| Wlan.DisconnectAlwaysSends | src/wlan.rs:115-119 | a disconnect sends (0, 0) and clears weakness from any prior context, keeping the thresholds |
| Wlan.FirstInterface | src/wlan.rs:132-146 | the first entry of a non-null, non-empty interface list, and none otherwise |
| Wlan.InitializeWlanMonitor | src/wlan.rs:22-73 | a failed open or enumeration leaves the state alone; otherwise handle and a fresh context (resolved thresholds, not weak, last quality 0) are stored before registering; success needs all three calls; the one initial reading is sent only after registration, and only with an interface and an answering query |
| Wlan.CleanupWlanMonitor | src/wlan.rs:76-96 | always forgets handle and context; unregisters and closes exactly when a handle is held |
| Wlan.CleanupClosesOnlyRecordedHandles | src/wlan.rs:22-96 | a handle opened by a start whose enumeration fails is never recorded, so cleanup closes nothing; one whose registration fails is closed by cleanup |
| Utils.QualityToRssi | native/Utils.cpp:6-10 | 0 gives -100 dBm, 100 and above give -50, and 1..99 give the floor of quality/2 minus 100; the result always lies in [-100, -50] |
| Utils.QualityToRssiMonotone | native/Utils.cpp:6-10 | a better quality never gives a lower RSSI |
| Utils.WcharToUtf8 | native/Utils.cpp:12-24 | a null string or a zero-size conversion gives ""; otherwise the converted bytes with one trailing NUL removed |
| NativeConnectivity.PrintConnectivity | native/NetworkMonitor.cpp:34-60 | the native flag is cleared by DISCONNECTED, set by either internet bit, and otherwise left as it was |
| NativeConnectivity.SendNetworkStatusMessage | native/NetworkMonitor.cpp:62-75 | always posts to the main thread; wParam is 1 exactly when an internet bit is set, so local-network-only counts as 0 |
| NativeConnectivity.NativeStatusAgreesWithRust | native/NetworkMonitor.cpp:62-75 | the native status message is exactly the Rust encoding of the Rust status mapping |
| NativeConnectivity.NativeFlagVersusRustFlag | native/NetworkMonitor.cpp:34-60 | native and Rust flags agree on DISCONNECTED and on internet connectivity; on every other connectivity (local network, subnet or no-traffic bits only) the native flag keeps its old value where the Rust flag clears |
| EventSink.AddRef | native/CNetworkListManagerEvents.cpp:10-12 | one more reference, and the new count is returned |
| EventSink.Release | native/CNetworkListManagerEvents.cpp:14-21 | one reference fewer, the new count returned; the sink is deleted (returning 0) exactly when the last reference goes |
| EventSink.AddRefRelease | native/CNetworkListManagerEvents.cpp:10-21 | AddRef then Release restores the sink and returns the original count |
| EventSink.QueryInterface | native/CNetworkListManagerEvents.cpp:23-31 | IUnknown and INetworkListManagerEvents hand out the sink with one more reference and S_OK; any other IID gives null, E_NOINTERFACE and an unchanged count |
| EventSink.RunMatchesNet | native/CNetworkListManagerEvents.cpp:6-31 | from any count, a run of calls each made while a reference is held ends alive with count plus net change, or deleted exactly when that sum reaches 0 |
| EventSink.ConnectivityChanged | native/CNetworkListManagerEvents.cpp:36-40 | updates the native flag as PrintConnectivity does, posts the status message to the main thread with wParam 1 exactly on internet and lParam 0, and returns S_OK |
| EventSink.HandleIgnoredEvent | native/CNetworkListManagerEvents.cpp:43-45 | the other three events leave the sink and the flag untouched and return S_OK |
| NativeMonitor.NativeHysteresis | native/NetworkMonitor.cpp:198-221 | a strong signal turns weak exactly at or below drop, a weak one turns strong exactly at or above recover, a post happens exactly on such a flip, and the quality is always recorded |
| NativeMonitor.NativeStepMatchesRust | native/NetworkMonitor.cpp:198-221 | whenever drop < recover, one native step leaves the same context as the Rust update |
| NativeMonitor.NativeStepDiffersWithoutDeadZone | native/NetworkMonitor.cpp:198-221 | with drop above recover the two variants disagree: from weak at quality 45 (drop 50, recover 40) Rust stays weak and native recovers |
| NativeMonitor.NativeRunMatchesRust | native/NetworkMonitor.cpp:186-228 | whenever drop < recover, the native context after any run of quality readings equals the Rust one |
| NativeMonitor.NativePostsAreFlips | native/NetworkMonitor.cpp:198-218 | every post is a flip: after any run the native weak flag has changed exactly when the number of posts is odd, and with drop below recover the Rust flag has changed exactly then too |
| NativeMonitor.WlanNotificationCallback | native/NetworkMonitor.cpp:173-245 | a null context, a non-MSM source, any code other than quality change, or a payload smaller than a ULONG does nothing; otherwise the hysteresis step runs and a flip posts (quality, QualityToRSSI(quality)) |
| NativeMonitor.StartWlanMonitor | native/NetworkMonitor.cpp:249-321 | a failed open returns 1 and leaves the context; a connected first interface seeds last quality and weakness (weak iff at or below drop, no dead zone); the result is 0 exactly when open and registration succeed; thresholds never change |
| NativeMonitor.StartupSeedMatchesRust | native/NetworkMonitor.cpp:277-289 | from a not-weak context the startup seed classifies the first reading as the Rust update would |
| NativeMonitor.NativeStartupDefaults | native/NetworkMonitor.cpp:248 | the native context starts with thresholds 40 and 50 and a connected interface makes it weak exactly at or below 40, where the unconfigured Rust context uses 30 and 40 and starts not weak |
| NativeMonitor.StartNetworkMonitor | native/NetworkMonitor.cpp:83-141 | returns 1 only when COM or the list manager cannot be created; a sink exists exactly once a connection point is found, with count 2 after a successful Advise (the connection point's reference) and 1 otherwise; the cookie changes only on Advise; after Advise and GetConnectivity the flag follows PrintConnectivity and 0 is posted exactly on DISCONNECTED |
| NativeMonitor.StopNetworkMonitor | native/NetworkMonitor.cpp:143-154 | Unadvise is called exactly when a connection point exists; the sink is deleted exactly when it was never advised or Unadvise succeeds, and otherwise keeps the connection point's one reference |
| NativeMonitor.StartStopReleasesSink | native/NetworkMonitor.cpp:113-154 | start then stop deletes the sink exactly once when Unadvise succeeds, and never releases it once too often when Unadvise fails |
| NativeMonitor.StartupLocalOnlyPostsNothing | native/NetworkMonitor.cpp:125-130 | any connectivity without an internet bit other than DISCONNECTED posts nothing at startup and leaves the native flag alone, while the Rust watcher given the same replies reports status 0 |
| NativeMonitor.NativeLoopStop | native/NetworkMonitor.cpp:362-372 | the native main loop leaves only at the first WM_QUIT; every earlier return, the error -1 included, keeps it looping |
| NativeMonitor.NativeLoopOutlastsRust | native/NetworkMonitor.cpp:362 | the native main loop never leaves before the Rust worker's loop, and leaves later exactly when the return that stops the Rust loop is -1 |
| NetworkQuality.Rtts | src/network_quality.rs:136-158 | the recorded round-trip times never outnumber the probes |
| NetworkQuality.Min | src/network_quality.rs:172 | the minimum is one of the times and no time is below it |
| NetworkQuality.Max | src/network_quality.rs:173 | the maximum is one of the times and no time is above it |
| NetworkQuality.SumBounds | src/network_quality.rs:174 | the sum of n times lies between n times the minimum and n times the maximum |
| NetworkQuality.DiffSumBound | src/network_quality.rs:193-197 | the sum of the n-1 consecutive absolute differences is at most n-1 times the spread |
| NetworkQuality.JitterWithinSpread | src/network_quality.rs:189-198 | jitter never exceeds max RTT minus min RTT |
| NetworkQuality.AverageWithinRange | src/network_quality.rs:172-175 | the floor average lies between the minimum and the maximum |
| NetworkQuality.JitterIsFloor | src/network_quality.rs:193-198 | for two or more times jitter is the floor of the difference sum divided by n-1 |
| NetworkQuality.JitterExamples | src/network_quality.rs:189-198 | [10,10] gives 0, [10,30] gives 20 and a single time gives 0 |
| NetworkQuality.ComputeJitter | src/network_quality.rs:189-199 | the windowed loop computes the jitter: 0 below two times, never above the spread |
| NetworkQuality.CollectRtts | src/network_quality.rs:131-158 | keeps the round-trip times of exactly the probes that got a reply with status success, in order, and counts them |
| NetworkQuality.LossPercent | src/network_quality.rs:177 | loss times count equals failures times 100; it lies in [0, 100], is 0 exactly when all succeed and 100 exactly when none does |
| NetworkQuality.MeasureLatencyAndLoss | src/network_quality.rs:121-186 | none without an ICMP handle; with no success all latencies and jitter are 0 and loss 100; otherwise min, max, floor average, jitter and loss of the successful times, with min <= avg <= max and jitter <= max - min |
| NetworkQuality.QueryTcpStats | src/network_quality.rs:210-232 | none when the statistics call fails; otherwise both cumulative counters and a percentage in [0, 100] that is 0 with no segments and otherwise retransmitted/(sent+retransmitted)*100 |
| NetworkQuality.AssembleSample | src/network_quality.rs:83-92 | the five latency/loss fields are present together exactly when the ping result is, the three TCP fields exactly when the TCP result is, each copied from its source |
| NetworkQuality.ProbeQualityOnce | src/network_quality.rs:78-93 | one probe of four echoes: the field groups are all present or all absent, latency present iff ICMP opened, TCP present iff the call succeeded, with min <= avg <= max, jitter within the spread and both percentages in [0, 100]; the values are the average, Min, Max, Jitter and LossPercent of the successful round-trip times (all 0 and loss 100 without any), and the TCP fields are those of QueryTcpStats |
| Monitor.StartMonitorThread | src/monitor.rs:17-24 | the started flag is always set afterwards; a worker is spawned exactly when it was clear, and a second start changes nothing |
| Monitor.PublishThreadId | src/monitor.rs:25-26 | the worker's first action records its thread id |
| Monitor.WorkerExit | src/monitor.rs:52-53 | the worker's last actions return the supervisor to idle: id 0 and not started |
| Monitor.SupervisorLifecycle | src/monitor.rs:17-55 | start spawns once, a repeated start spawns nothing, posts are refused until the id is published, and after the worker exits a new start spawns again |
| Monitor.HandleNetworkStatusMessage | src/monitor.rs:100-111 | connected becomes exactly status != 0; nothing else changes |
| Monitor.HandleWifiSignalMessage | src/monitor.rs:114-116 | the reading is logged and nothing else changes |
| Monitor.FirstStop | src/monitor.rs:73-80 | the index of the first receive result that is 0 (WM_QUIT) or -1: every earlier result continues the loop |
| Monitor.RunMessageLoop | src/monitor.rs:68-97 | the loop exits exactly when some result is 0 or -1, and then right after the first; every earlier message is dispatched in order; without one it consumes everything and keeps waiting |
| Monitor.FoldEffect | src/monitor.rs:82-90 | after a run, connected is set by the last network message (unchanged without one) and the signal log grows by the decoded readings in order |
| Monitor.CleanupMonitorThread | src/monitor.rs:58-65 | WM_QUIT is posted to the worker exactly when its id is non-zero, and GetMessage reads it as 0 |
| Monitor.QuitAfterQueued | src/monitor.rs:58-80 | a quit posted behind queued messages stops the loop only after all of them are dispatched |
| Monitor.SignalReachesLoop | src/monitor.rs:87-89 | a WiFi reading posted to a published worker arrives in the loop's log unchanged, and the following quit stops the loop |
| Monitor.StatusReachesLoop | src/monitor.rs:82-84 | a network status posted to a published worker sets the loop's flag to status != 0 (nothing in src/ posts this message; see the introduction) |
| Monitor.StartWorker | src/monitor.rs:25-41 | each initialisation failure is logged, and only logged; the initial network report is the one initialisation produced; the initial WiFi post carries the reading WLAN initialisation queried, goes to the id the worker published as its first step, and is accepted or not as the OS replies |
| Monitor.RunWorker | src/monitor.rs:24-54 | for a worker spawned with the started flag set: the loop runs on the received messages whatever initialisation did; when it exits the teardown leaves network and WLAN released and the supervisor idle; until then the worker stays published and started |
| Monitor.WorkerOrder | src/monitor.rs:24-54 | the trace the transitions build lists the steps in source order: the six setup steps up to the loop, then, only once the loop has left, the six teardown steps |
| Monitor.WorkerGuards | src/monitor.rs:24-54 | at every step but the last the started flag is set, so a second start spawns nothing; the id stays published until it is cleared; both watchers are already released when the id is cleared |

## Left out

- Thread spawning, joins, sleeps, atomics, `Mutex`/`OnceLock` and `Interlocked*`
  atomicity are left out. This covers `start_quality_probe`, `stop_quality_probe`
  and the ten-second probe loop (src/network_quality.rs:38-75). The supervisor,
  the prober and the message loop are sequential state records, and `RunWorker`
  takes the messages `GetMessageW` returns as a sequence.
- Monitor.RunWorker: the initial WiFi post is reported, but it is not inserted
  into the received sequence, which is a parameter.
- Every Win32, COM, WLAN, ICMP and IP-Helper call is a parameter: status
  codes, `Option` replies, echo outcomes, connectivity masks. Opaque handles
  are plain naturals.
- Logging, console output, `report_quality_sample` and the log text are left
  out. The WiFi handler's log line is modelled as an entry in `signalLog`.
- src/global.rs and src/lib.rs are left out. They hold host-callback plumbing
  (`report_network_status` is modelled as the `report` output), timestamps and
  the N-API entry point. The globals they declare do not match the fields
  wlan.rs and monitor.rs use. For example, src/monitor.rs:103 writes a
  `network_connected` field `MonitorState` lacks. This model keeps that flag
  in its own `LoopState`.
- NetworkQuality.MeasureLatencyAndLoss: percentages are exact reals, not
  `f32`. The u32 sums of round-trip times and of their differences are
  unbounded here, whereas the source would overflow. Overflow needs round-trip
  times near 2^30 ms, far beyond the 1000 ms timeout.
- NetworkQuality.QueryTcpStats: the percentage is the exact ratio, without
  `f32` rounding.
- NetworkQuality.ProbeQualityOnce: parsing the literal target `8.8.8.8` always
  succeeds, so the probe never returns none.
- Utils.QualityToRssi: the `double` division is modelled as integer floor.
  This is exact for qualities 1..99.
- Utils.WcharToUtf8: the UTF-16 to UTF-8 conversion itself
  (`WideCharToMultiByte`) is a parameter. Only the null, zero-size and
  trailing-NUL handling is modelled.
- EventSink.RunMatchesNet: the `LONG` reference count wrapping at 2^31 is not
  modelled. Counts are unbounded naturals.
- The native `main` is modelled only by its loop condition
  (`NativeMonitor.NativeLoopStop`); its console output, its
  `TranslateMessage`/`DispatchMessage` calls and the calls to the start and
  stop functions around the loop are left out, as they post or decide
  nothing beyond what those functions' own models state.
- `StopNetworkMonitor` is modelled for its null guards and the sink's
  references. Its `SafeRelease` calls on the list manager, container and
  connection point and its `CoUninitialize` are left out, because the model
  keeps no reference counts for those foreign COM objects.
- `StopWlanMonitor` and `OnExit` are left out. `StopWlanMonitor` unregisters
  and closes the WLAN handle with no guard, two foreign calls with no result
  used; `OnExit` only calls the two stop functions.
- The empty `reportNetworkStatus`/`reportWifiSignal` stubs are left out; they
  do nothing. The `LogInfo`/`LogWarn`/`LogError` helpers are left out too;
  they only print to the console. The native `sendWlanStatusMessage`
  is the `post` output of `NativeMonitor.WlanNotificationCallback`.
- NativeMonitor.WlanNotificationCallback: a null `pNotificationData` is not
  modelled. The native callback dereferences it without a check.
- `usize` and `isize` are taken as 64-bit, as on 64-bit Windows.
- The declaration-only headers `native/CNetworkListManagerEvents.h` and
  `native/Utils.h`, including `SafeRelease`, are left out.
