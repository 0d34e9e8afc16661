# paqet: opening the pcap capture handle

This project models `newHandle` and `findWindowsPcapDevice` from paqet's
`internal/socket/handle.go` in Dafny, and proves properties of the model.

- `newHandle` turns the configured network interface into an active pcap
  capture handle.
- On Windows, pcap names its devices differently from the OS. So
  `findWindowsPcapDevice` first searches pcap's device list for the device
  behind the interface.
- Everywhere else, the interface name is used as it is.
- Next, an inactive pcap session is created. It gets five settings in a fixed
  order: buffer size, snapshot length 65536, promiscuous mode, the
  block-forever read timeout, and immediate mode. Then it is activated.
- Any failure ends the construction at once. Once the inactive session
  exists, it is cleaned up on every return path (Go's `defer`).

Files:

- `device.dfy` (module `PcapDevice`): the device search.
  - `FindWindowsPcapDevice` is the source's nested loops.
  - `Resolve` is a first-match specification built from three rules, and the
    method is proved to return exactly what `Resolve` gives.
  - Rule (a) `AddressRule`: a non-nil device IP equals the IP of an
    `*net.IPNet` address of the interface.
  - Rule (b) `DescriptionRule`: the lower-cased description contains the
    lower-cased interface name.
  - Rule (c) `IndexRule`: the device name contains the decimal index,
    compared case-sensitively.
  - Rules (a) and (b) are checked device by device in a single pass. Rule (c)
    runs only after that pass has failed.
- `handle.dfy` (module `Socket`): `newHandle` over a pcap library oracle.
  - The class `Pcap` stands for the library. Its device list and its answer
    to each call are fixed inputs, and it logs every call made to it.
  - `NewHandle` is proved to leave exactly `Trace(...)` in the log and to
    return `Outcome(...)`.
  - The lemmas state the order of the calls, the abort at the first failure,
    and that cleanup happens exactly once.
- `strings.dfy` (module `Strings`): the string functions the search uses:
  `strings.ToLower` restricted to ASCII, `strings.Contains`, and
  `fmt.Sprintf("%d", n)` with a parser that reads it back.
- `net.dfy` (module `Net`): IP addresses, Go's `net.IP.Equal` (including the
  IPv4-in-IPv6 form), interface addresses and the interface descriptor.
- `seqs.dfy` (module `Seqs`): `FirstIndex`, the first element that passes a
  test. It is the specification of every loop that returns on its first hit.
- `wrappers.dfy` (module `Wrappers`): `Option` and `Result`. Where Go returns
  `("", err)` or `(nil, err)`, the model returns `Failure(err)`.

Inputs that the code obtains from outside become parameters:

- `runtime.GOOS == "windows"` is the boolean `windows`.
- `pcap.FindAllDevs` is `Pcap.devices`, either a device list or an error.
- `net.InterfaceByName(iface.Name)` followed by `Addrs()` is a `Lookup`:
  - `None` when the lookup fails;
  - otherwise the interface's addresses;
  - the empty list when `Addrs()` fails, because its error is discarded.
- Whether each library call fails is `Pcap.fails`.

Two consequences of how the code is written are worth stating:

- Rules (a) and (b) share one loop, device by device (handle.go:67-90), so
  the search is not three global passes.
  - An earlier device that matches only by description beats a later device
    that matches by address. `EarlierDescriptionBeatsLaterAddress` proves
    this on a concrete pair of devices.
- Rule (c) compares case-sensitively (handle.go:96).
  - `IndexRuleIgnoresNameCase` shows that a case-insensitive comparison would
    give the same answer, because the decimal index has no letters.

## Model

| member | source | states |
|---|---|---|
| `PcapDevice.Resolve` | internal/socket/handle.go:58-102 | A failed enumeration gives an enumeration error carrying its cause. A found name is the name of an enumerated device. Any other failure is the no-match error with the interface name and MAC string. |
| `PcapDevice.FindWindowsPcapDevice` | internal/socket/handle.go:58-102 | The nested loops return exactly the first-match result `Resolve` specifies, for every device list, interface and OS lookup. |
| `PcapDevice.BoundToInterface` | internal/socket/handle.go:73-81 | The OS lookup succeeded and one of the interface's `*net.IPNet` addresses equals the given IP under `net.IP.Equal`. |
| `PcapDevice.AddressRule` | internal/socket/handle.go:69-81 | Rule (a): some non-nil IP of the device is bound to the interface. |
| `PcapDevice.DescriptionRule` | internal/socket/handle.go:87 | Rule (b): the lower-cased description contains the lower-cased interface name. |
| `PcapDevice.IndexRule` | internal/socket/handle.go:94-96 | Rule (c): the device name contains the `%d` form of the interface index, compared case-sensitively. |
| `PcapDevice.ResolveFirstLoopMatch` | internal/socket/handle.go:67-90 | The first device that passes rule (a) or rule (b) is returned. Later devices do not matter, whatever rule they would match. |
| `PcapDevice.ResolveIndexFallback` | internal/socket/handle.go:92-99 | When no device passes (a) or (b), the first device whose name contains the decimal index is returned. |
| `PcapDevice.ResolveSuccessWitness` | internal/socket/handle.go:67-99 | A returned name belongs to a device with no (a)/(b) match before it. That device passes (a) or (b), or no device passes (a)/(b) and it is the first to pass (c). |
| `PcapDevice.ResolveFailsIffNoRule` | internal/socket/handle.go:67-101 | After a successful enumeration, the search fails with the no-match error if and only if no device passes any of the three rules. |
| `PcapDevice.FailedLookupDisablesAddressRule` | internal/socket/handle.go:71-81 | When `net.InterfaceByName` fails, rule (a) never fires, whatever the device's addresses. |
| `PcapDevice.DescriptionRuleIgnoresNameCase` | internal/socket/handle.go:87 | Rule (b) gives the same answer for the interface name and its lower-cased form. |
| `PcapDevice.IndexRuleIgnoresNameCase` | internal/socket/handle.go:94-96 | The case-sensitive index test agrees with the same test on the lower-cased device name. |
| `PcapDevice.DescriptionStartsWithName` | internal/socket/handle.go:87 | A description that begins with the interface name, up to ASCII case, passes rule (b). |
| `PcapDevice.AddressMatchScenario` | internal/socket/handle.go:69-78 | Interface eth0 is bound to 10.0.0.5, and device dev0 carries that address. The search returns "dev0". |
| `PcapDevice.DescriptionMatchScenario` | internal/socket/handle.go:87-88 | With no address match, a device described as "ETH0 Controller" is returned for interface eth0. |
| `PcapDevice.IndexMatchScenario` | internal/socket/handle.go:94-97 | With no address or description match, `\Device\NPF_3` is returned for interface index 3. |
| `PcapDevice.EarlierDescriptionBeatsLaterAddress` | internal/socket/handle.go:67-90 | Device A matches only by description and comes before device B, which matches by address. A is returned. |
| `Strings.LowerChar` | internal/socket/handle.go:87 | The result is never an upper-case ASCII letter. It is the input, or that upper-case letter lowered. |
| `Strings.ToLower` | internal/socket/handle.go:87 | The result has the input's length and lower-cases it character by character. |
| `Strings.ToLowerIdempotent` | internal/socket/handle.go:87 | Lower-casing twice is the same as lower-casing once. |
| `Strings.Contains` | internal/socket/handle.go:87 | True if and only if some window of the string spells the substring. |
| `Strings.ContainsEmpty` | internal/socket/handle.go:87 | Every string contains the empty string, so an empty interface name passes rule (b) for any device. |
| `Strings.ContainsLetterFree` | internal/socket/handle.go:96 | For a substring without letters, lower-casing the haystack does not change containment. |
| `Strings.NatToDecimal` | internal/socket/handle.go:94 | The result is a non-empty string of digits with no leading zero. |
| `Strings.FormatInt` | internal/socket/handle.go:94 | The result is non-empty. It starts with '-' exactly for negative numbers, every other character is a digit, and a non-negative number has no leading zero. |
| `Strings.FormatIntRoundTrip` | internal/socket/handle.go:94 | Parsing the formatted index gives the index back. |
| `Strings.FormatIntInjective` | internal/socket/handle.go:94 | Different indexes format to different strings. |
| `Net.IPEqual` | internal/socket/handle.go:77 | For addresses of equal length it is byte equality. Addresses of different lengths are equal only when the lengths are 4 and 16, and then exactly when the 16-byte one is the 4-byte one behind the IPv4-in-IPv6 prefix. |
| `Net.IPEqualSymmetric` | internal/socket/handle.go:77 | Whether the interface address or the device address is the receiver of `Equal` makes no difference. |
| `Net.IPEqualMapped` | internal/socket/handle.go:77 | An IPv4 address equals its IPv4-in-IPv6 form, in both directions. |
| `Seqs.FirstIndex` | internal/socket/handle.go:95-99 | The result is the position of the first element passing the test, or the length when none does. |
| `Socket.NewHandle` | internal/socket/handle.go:13-54 | The log grows by exactly `Trace` and the result is `Outcome`. These are the device choice followed by the session steps up to the first failure. |
| `Socket.SettleDevice` | internal/socket/handle.go:16-23 | Logs the enumeration exactly on Windows and returns `DeviceName`: the interface name, or the device found, or the search's error wrapped with the interface name. |
| `Socket.DeviceName` | internal/socket/handle.go:16-23 | Off Windows it is the interface name. On Windows a success names an enumerated device, and a failure is a not-found error carrying the interface name. |
| `Socket.Trace` | internal/socket/handle.go:13-54 | The library calls of a construction: the enumeration on Windows, then, when a device name is settled, the session's calls on it. |
| `Socket.Outcome` | internal/socket/handle.go:13-54 | The result of a construction: the device search's error, or the session's result on the device settled. |
| `Socket.SessionTrace` | internal/socket/handle.go:25-53 | The calls of a session: the plan up to and including its first failing call, then the cleanup unless the creation failed. |
| `Socket.SessionResult` | internal/socket/handle.go:25-53 | A handle on the device exactly when no call of the plan fails; otherwise the error of the first failing call. |
| `Socket.OpenDevice` | internal/socket/handle.go:25-53 | The log grows by the calls of the plan up to the first failing one, then the cleanup if the session was created. The result is that failure's error, or the handle. |
| `Socket.ConfigureAndActivate` | internal/socket/handle.go:31-53 | Given a created session, the five settings and the activation are attempted in order up to the first failure. |
| `Socket.Pcap.FindAllDevs` | internal/socket/handle.go:59 | Logs the enumeration and returns the library's device list or error. |
| `Socket.Pcap.NewInactiveHandle` | internal/socket/handle.go:25 | Logs the creation for the device and returns the library's answer. |
| `Socket.Pcap.Set` | internal/socket/handle.go:31-46 | Logs the setting with its value and returns the library's answer. |
| `Socket.Pcap.Activate` | internal/socket/handle.go:48 | Logs the activation and returns the library's answer. |
| `Socket.Pcap.CleanUp` | internal/socket/handle.go:29 | Logs the cleanup. |
| `Socket.TraceOnDevice` | internal/socket/handle.go:16-25 | Once the device name is settled, the trace is the enumeration (on Windows) followed by the session on that device. |
| `Socket.TraceNotFound` | internal/socket/handle.go:17-22 | When no device name is settled, the trace is the enumeration alone and the outcome is the search's error. |
| `Socket.SessionTraceAfterCreate` | internal/socket/handle.go:29-53 | Once the session is created, its calls are the creation, the further calls attempted, and the cleanup. |
| `Socket.NonWindowsUsesInterfaceName` | internal/socket/handle.go:16-17 | Off Windows the first call creates a session on `cfg.Interface.Name`, and nothing is enumerated. A returned handle is on that name. Neither the device list nor the OS lookup changes the trace or the outcome. |
| `Socket.WindowsSearchesFirst` | internal/socket/handle.go:17-23 | On Windows, enumeration comes first. A failed search returns a not-found error with the interface name and the search's error, and calls nothing else. Otherwise the session is created on the device found. |
| `Socket.SuccessAppliesEverySetting` | internal/socket/handle.go:31-53 | A returned handle comes only after creation, buffer size sockbuf, snap length 65536, promiscuous on, BlockForever timeout, immediate mode on and activation, all in that order and all successful, followed by the cleanup. |
| `Socket.SettingFailureStopsThere` | internal/socket/handle.go:31-46 | A setting error names one of the five settings, and the library rejected that setting. Every earlier call succeeded. No later setting and no activation was attempted, and the session was cleaned up. |
| `Socket.CreateFailureCleansNothing` | internal/socket/handle.go:25-28 | A creation error carries the interface name and the library's cause. The creation is the last call, with no cleanup. |
| `Socket.ActivateFailureAfterAllSettings` | internal/socket/handle.go:48-51 | An activation error carries the interface name. It comes after all five settings succeeded and is followed by the cleanup. |
| `Socket.CleanUpExactlyOnce` | internal/socket/handle.go:29 | Once a session was created, the cleanup occurs exactly once, as the last call. Without a created session it never occurs. |
| `Socket.SessionCleanUp` | internal/socket/handle.go:29 | The same count for one session: one cleanup exactly when creation succeeded, as the last call. |
| `Socket.ZeroBufferSizeScenario` | internal/socket/handle.go:31-33 | A rejected buffer size of 0 returns that setting's error. The calls are the creation, the buffer size and the cleanup, and nothing after them. |

## Left out

- The pcap library (`FindAllDevs`, `NewInactiveHandle`, the `Set*` methods, `Activate`, `CleanUp`) is a C-backed foreign library.
  - It is an oracle: a fixed device list, and a failure or success for each call.
  - A call's answer depends only on the call, not on earlier calls.
  - The active handle is represented only by its device name.
- `Pcap.Set` stands for the five separate setter methods, with the setting and its value as argument.
- `FindAllDevs` is called in `NewHandle` rather than inside the device search.
  - The search method receives its outcome as a parameter.
  - The order of the calls, and what the search sees, are unchanged.
- The OS interface queries (`net.InterfaceByName`, `Addrs`) are one `Lookup` input.
  - The source repeats the lookup for every non-nil device address. The model assumes the OS gives the same answer each time.
  - A typed-nil `*net.IPNet` value is not modelled.
- `strings.ToLower` is modelled for ASCII letters only, because Unicode case mapping is out of scope.
- `net.IP.Equal` follows Go's definition of it. The Go standard library is not part of this model.
- Only the IP of each pcap device address is kept. Netmask, broadcast and point-to-point addresses are not read by the search.
- Error values keep their kind and the fields the messages carry: the interface name, the MAC string, the setting and the underlying cause. The message text is not modelled.
  - `SettingFailed` carries the setting with its value for every setting. The source's messages print a value only for the buffer size.
- Integers are unbounded. Go's `int` is wide enough for interface indexes and buffer sizes, so no wrap-around is involved.
- Configuration loading (`paqet/internal/conf`) and everything that reads packets from the handle are not part of this model.
