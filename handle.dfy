/**
 * `newHandle`: open a live pcap capture on the configured interface. On
 * Windows the pcap device is found first; then an inactive session is
 * created, configured in a fixed order and activated, and the inactive
 * session is cleaned up on every path once it exists.
 *
 * The pcap library is an oracle (`Pcap`): it reports a fixed device list and
 * fails or succeeds on each call as its `fails` function says, and it keeps a
 * log of the calls made to it, which is what the properties below are about.
 */
module Socket {
  import opened Wrappers
  import opened Seqs
  import opened Net
  import opened PcapDevice

  /** `pcap.BlockForever`: reads wait for packets without a time limit. */
  datatype Timeout = BlockForever

  /** One configuration call on the inactive session, with its argument. */
  datatype Setting =
    | BufferSize(bytes: int)
    | SnapLen(bytes: int)
    | Promisc(enabled: bool)
    | ReadTimeout(timeout: Timeout)
    | ImmediateMode(enabled: bool)

  /** A call into the pcap library. */
  datatype Call =
    | EnumerateDevices
    | CreateInactive(device: string)
    | Configure(setting: Setting)
    | ActivateSession
    | CleanUpSession

  /** `conf.PCAP`: only the socket buffer size is read here. */
  datatype PcapConfig = PcapConfig(sockbuf: int)

  /** `conf.Network`: the interface to capture on and the pcap tuning. */
  datatype Network = Network(iface: Interface, pcap: PcapConfig)

  /** The active capture handle, identified by the device it captures on. */
  datatype Handle = Handle(device: string)

  datatype HandleError =
    | DeviceNotFound(iface: string, reason: ResolveError)
    | CreateFailed(iface: string, cause: string)
    | SettingFailed(setting: Setting, cause: string)
    | ActivateFailed(iface: string, cause: string)

  /** The snapshot length: the largest frame captured whole. */
  const SnapLength: int := 65536

  /** The five settings, in the order they are applied. */
  function Settings(cfg: Network): seq<Setting>
  {
    [BufferSize(cfg.pcap.sockbuf), SnapLen(SnapLength), Promisc(true), ReadTimeout(BlockForever), ImmediateMode(true)]
  }

  /** Every call a construction on `device` makes when nothing fails, before the cleanup. */
  function Plan(device: string, cfg: Network): seq<Call>
  {
    var s := Settings(cfg);
    [CreateInactive(device), Configure(s[0]), Configure(s[1]), Configure(s[2]), Configure(s[3]), Configure(s[4]), ActivateSession]
  }

  function Failing(fails: Call -> Option<string>): Call -> bool
  {
    c => fails(c).Some?
  }

  /** Position in the plan of the first call that fails; `|Plan|` when none does. */
  function FirstFailure(device: string, cfg: Network, fails: Call -> Option<string>): nat
  {
    FirstIndex(Plan(device, cfg), Failing(fails))
  }

  /**
   * The calls a construction on `device` makes: the plan up to and including
   * its first failing call, then the cleanup, unless the session was never created.
   */
  function SessionTrace(device: string, cfg: Network, fails: Call -> Option<string>): seq<Call>
  {
    var plan, k := Plan(device, cfg), FirstFailure(device, cfg, fails);
    plan[..Attempted(device, cfg, fails)] + if k == 0 then [] else [CleanUpSession]
  }

  /** How many calls of the plan are made: up to and including the first failing one. */
  function Attempted(device: string, cfg: Network, fails: Call -> Option<string>): nat
  {
    var k := FirstFailure(device, cfg, fails);
    if k < 7 then k + 1 else 7
  }

  /** The outcome of a construction on `device`: the error of its first failing call, or the handle. */
  function SessionResult(device: string, cfg: Network, fails: Call -> Option<string>): (r: Result<Handle, HandleError>)
    ensures r.Success? <==> forall i :: 0 <= i < |Plan(device, cfg)| ==> fails(Plan(device, cfg)[i]).None?
    ensures r.Success? ==> r.value == Handle(device)
  {
    var plan, k := Plan(device, cfg), FirstFailure(device, cfg, fails);
    if k == 0 then Failure(CreateFailed(cfg.iface.name, fails(plan[0]).value))
    else if k <= 5 then Failure(SettingFailed(Settings(cfg)[k - 1], fails(plan[k]).value))
    else if k == 6 then Failure(ActivateFailed(cfg.iface.name, fails(plan[6]).value))
    else Success(Handle(device))
  }

  /** The device to open: the interface name, or on Windows the outcome of the device search. */
  function DeviceName(cfg: Network, windows: bool, enumerated: Result<seq<Device>, string>, lookup: Lookup)
    : (r: Result<string, HandleError>)
    ensures !windows ==> r == Success(cfg.iface.name)
    ensures windows && r.Success? ==>
      enumerated.Success? && exists i :: 0 <= i < |enumerated.value| && enumerated.value[i].name == r.value
    ensures r.Failure? ==> windows && r.error.DeviceNotFound? && r.error.iface == cfg.iface.name
  {
    if !windows then Success(cfg.iface.name)
    else match Resolve(enumerated, cfg.iface, lookup)
      case Success(device) => Success(device)
      case Failure(e) => Failure(DeviceNotFound(cfg.iface.name, e))
  }

  /** The library calls of `newHandle` that precede the session: the device enumeration on Windows. */
  function Prefix(windows: bool): seq<Call>
  {
    if windows then [EnumerateDevices] else []
  }

  /** The library calls `newHandle` makes. */
  function Trace(cfg: Network, windows: bool, enumerated: Result<seq<Device>, string>, lookup: Lookup,
                 fails: Call -> Option<string>): seq<Call>
  {
    Prefix(windows) +
    match DeviceName(cfg, windows, enumerated, lookup)
    case Success(device) => SessionTrace(device, cfg, fails)
    case Failure(_) => []
  }

  /** What `newHandle` returns. */
  function Outcome(cfg: Network, windows: bool, enumerated: Result<seq<Device>, string>, lookup: Lookup,
                   fails: Call -> Option<string>): Result<Handle, HandleError>
  {
    match DeviceName(cfg, windows, enumerated, lookup)
    case Success(device) => SessionResult(device, cfg, fails)
    case Failure(e) => Failure(e)
  }

  /** The pcap library as an oracle that logs the calls made to it. */
  class Pcap {
    /** What `pcap.FindAllDevs` reports. */
    const devices: Result<seq<Device>, string>
    /** The error, if any, that the library reports for each call. */
    const fails: Call -> Option<string>
    /** The calls made so far, oldest first. */
    var log: seq<Call>

    constructor (devices: Result<seq<Device>, string>, fails: Call -> Option<string>)
      ensures this.devices == devices && this.fails == fails && log == []
    {
      this.devices := devices;
      this.fails := fails;
      log := [];
    }

    method FindAllDevs() returns (r: Result<seq<Device>, string>)
      modifies this
      ensures r == devices && log == old(log) + [EnumerateDevices]
    {
      log := log + [EnumerateDevices];
      r := devices;
    }

    method NewInactiveHandle(device: string) returns (err: Option<string>)
      modifies this
      ensures err == fails(CreateInactive(device)) && log == old(log) + [CreateInactive(device)]
    {
      log := log + [CreateInactive(device)];
      err := fails(CreateInactive(device));
    }

    /** `SetBufferSize`, `SetSnapLen`, `SetPromisc`, `SetTimeout` and `SetImmediateMode`. */
    method Set(setting: Setting) returns (err: Option<string>)
      modifies this
      ensures err == fails(Configure(setting)) && log == old(log) + [Configure(setting)]
    {
      log := log + [Configure(setting)];
      err := fails(Configure(setting));
    }

    method Activate() returns (err: Option<string>)
      modifies this
      ensures err == fails(ActivateSession) && log == old(log) + [ActivateSession]
    {
      log := log + [ActivateSession];
      err := fails(ActivateSession);
    }

    method CleanUp()
      modifies this
      ensures log == old(log) + [CleanUpSession]
    {
      log := log + [CleanUpSession];
    }
  }

  /**
   * `newHandle`: settle the device name (searching for it on Windows), then
   * open a session on it.
   */
  method NewHandle(cfg: Network, windows: bool, lookup: Lookup, pcap: Pcap) returns (r: Result<Handle, HandleError>)
    modifies pcap
    ensures pcap.log == old(pcap.log) + Trace(cfg, windows, pcap.devices, lookup, pcap.fails)
    ensures r == Outcome(cfg, windows, pcap.devices, lookup, pcap.fails)
  {
    var deviceName := SettleDevice(cfg, windows, lookup, pcap);
    if deviceName.Failure? {
      TraceNotFound(cfg, windows, pcap.devices, lookup, pcap.fails);
      return Failure(deviceName.error);
    }
    ghost var settled := pcap.log;
    TraceOnDevice(cfg, windows, pcap.devices, lookup, pcap.fails, deviceName.value);
    r := OpenDevice(cfg, deviceName.value, pcap);
    ghost var session := SessionTrace(deviceName.value, cfg, pcap.fails);
    assert pcap.log == old(pcap.log) + (Prefix(windows) + session) by {
      assert pcap.log == settled + session;
    }
  }

  /**
   * The start of `newHandle`: the interface name, or on Windows the pcap device
   * found for the interface, with the search's error wrapped when there is none.
   */
  method SettleDevice(cfg: Network, windows: bool, lookup: Lookup, pcap: Pcap) returns (r: Result<string, HandleError>)
    modifies pcap
    ensures pcap.log == old(pcap.log) + Prefix(windows)
    ensures r == DeviceName(cfg, windows, pcap.devices, lookup)
  {
    var deviceName := cfg.iface.name;
    if windows {
      var devices := pcap.FindAllDevs();
      var found := FindWindowsPcapDevice(devices, cfg.iface, lookup);
      if found.Failure? {
        return Failure(DeviceNotFound(cfg.iface.name, found.error));
      }
      deviceName := found.value;
    }
    return Success(deviceName);
  }

  /**
   * The part of `newHandle` after the device name is settled: create the
   * inactive session and, once it exists, configure and activate it. Go's
   * `defer inactive.CleanUp()` is rendered by cleaning up once after
   * `ConfigureAndActivate` returns, whichever way it returns.
   */
  method OpenDevice(cfg: Network, deviceName: string, pcap: Pcap) returns (r: Result<Handle, HandleError>)
    modifies pcap
    ensures pcap.log == old(pcap.log) + SessionTrace(deviceName, cfg, pcap.fails)
    ensures r == SessionResult(deviceName, cfg, pcap.fails)
  {
    var err := pcap.NewInactiveHandle(deviceName);
    if err.Some? {
      FirstIndexAt(Plan(deviceName, cfg), Failing(pcap.fails), 0);
      return Failure(CreateFailed(cfg.iface.name, err.value));
    }
    r := ConfigureAndActivate(cfg, deviceName, pcap);
    pcap.CleanUp();
    SessionTraceAfterCreate(deviceName, cfg, pcap.fails);
  }

  /** Once the device name is settled, the trace and the outcome are those of the session on it. */
  lemma TraceOnDevice(cfg: Network, windows: bool, enumerated: Result<seq<Device>, string>, lookup: Lookup,
                      fails: Call -> Option<string>, device: string)
    requires DeviceName(cfg, windows, enumerated, lookup) == Success(device)
    ensures Trace(cfg, windows, enumerated, lookup, fails) ==
      Prefix(windows) + SessionTrace(device, cfg, fails)
    ensures Outcome(cfg, windows, enumerated, lookup, fails) == SessionResult(device, cfg, fails)
  {
  }

  /** When no device name is settled, nothing follows the enumeration and the outcome is the search's error. */
  lemma TraceNotFound(cfg: Network, windows: bool, enumerated: Result<seq<Device>, string>, lookup: Lookup,
                      fails: Call -> Option<string>)
    requires DeviceName(cfg, windows, enumerated, lookup).Failure?
    ensures Trace(cfg, windows, enumerated, lookup, fails) == Prefix(windows)
    ensures Outcome(cfg, windows, enumerated, lookup, fails) == Failure(DeviceName(cfg, windows, enumerated, lookup).error)
  {
  }

  /** Once the session exists, its trace is the creation, the further calls attempted, and the cleanup. */
  lemma SessionTraceAfterCreate(device: string, cfg: Network, fails: Call -> Option<string>)
    requires FirstFailure(device, cfg, fails) > 0
    ensures SessionTrace(device, cfg, fails) ==
      [CreateInactive(device)] + Plan(device, cfg)[1..Attempted(device, cfg, fails)] + [CleanUpSession]
  {
    var plan := Plan(device, cfg);
    var n := Attempted(device, cfg, fails);
    assert plan[..n] == [plan[0]] + plan[1..n];
  }

  /** The steps of `newHandle` between creating the inactive session and returning. */
  method ConfigureAndActivate(cfg: Network, deviceName: string, pcap: Pcap) returns (r: Result<Handle, HandleError>)
    requires pcap.fails(CreateInactive(deviceName)).None?
    modifies pcap
    ensures FirstFailure(deviceName, cfg, pcap.fails) > 0
    ensures pcap.log == old(pcap.log) + Plan(deviceName, cfg)[1..Attempted(deviceName, cfg, pcap.fails)]
    ensures r == SessionResult(deviceName, cfg, pcap.fails)
  {
    ghost var plan, log0 := Plan(deviceName, cfg), pcap.log;
    var err := pcap.Set(BufferSize(cfg.pcap.sockbuf));
    assert pcap.log == log0 + plan[1..2];
    if err.Some? {
      SettingStop(deviceName, cfg, pcap.fails, 1);
      return Failure(SettingFailed(BufferSize(cfg.pcap.sockbuf), err.value));
    }
    err := pcap.Set(SnapLen(SnapLength));
    assert pcap.log == log0 + plan[1..3];
    if err.Some? {
      SettingStop(deviceName, cfg, pcap.fails, 2);
      return Failure(SettingFailed(SnapLen(SnapLength), err.value));
    }
    err := pcap.Set(Promisc(true));
    assert pcap.log == log0 + plan[1..4];
    if err.Some? {
      SettingStop(deviceName, cfg, pcap.fails, 3);
      return Failure(SettingFailed(Promisc(true), err.value));
    }
    err := pcap.Set(ReadTimeout(BlockForever));
    assert pcap.log == log0 + plan[1..5];
    if err.Some? {
      SettingStop(deviceName, cfg, pcap.fails, 4);
      return Failure(SettingFailed(ReadTimeout(BlockForever), err.value));
    }
    err := pcap.Set(ImmediateMode(true));
    assert pcap.log == log0 + plan[1..6];
    if err.Some? {
      SettingStop(deviceName, cfg, pcap.fails, 5);
      return Failure(SettingFailed(ImmediateMode(true), err.value));
    }

    err := pcap.Activate();
    assert pcap.log == log0 + plan[1..7];
    if err.Some? {
      FirstFailureAt(deviceName, cfg, pcap.fails, 6);
      return Failure(ActivateFailed(cfg.iface.name, err.value));
    }
    FirstFailureAt(deviceName, cfg, pcap.fails, 7);
    return Success(Handle(deviceName));
  }

  /** The first failing call of the plan is at `k` when every call before it succeeds and the one at it fails. */
  lemma FirstFailureAt(device: string, cfg: Network, fails: Call -> Option<string>, k: nat)
    requires k <= 7
    requires forall j :: 0 <= j < k ==> fails(Plan(device, cfg)[j]).None?
    requires k < 7 ==> fails(Plan(device, cfg)[k]).Some?
    ensures FirstFailure(device, cfg, fails) == k
    ensures Attempted(device, cfg, fails) == if k < 7 then k + 1 else 7
  {
    FirstIndexAt(Plan(device, cfg), Failing(fails), k);
  }

  /** A session whose `k`th setting is the first call rejected ends with that setting's error. */
  lemma SettingStop(device: string, cfg: Network, fails: Call -> Option<string>, k: nat)
    requires 1 <= k <= 5
    requires forall j :: 0 <= j < k ==> fails(Plan(device, cfg)[j]).None?
    requires fails(Configure(Settings(cfg)[k - 1])).Some?
    ensures FirstFailure(device, cfg, fails) == k && Attempted(device, cfg, fails) == k + 1
    ensures SessionResult(device, cfg, fails) ==
      Failure(SettingFailed(Settings(cfg)[k - 1], fails(Configure(Settings(cfg)[k - 1])).value))
  {
    FirstFailureAt(device, cfg, fails, k);
  }

  /**
   * Off Windows the interface name is the device name, and no device search
   * happens: nothing is enumerated, and neither the device list nor the OS
   * lookup has any influence.
   */
  lemma NonWindowsUsesInterfaceName(cfg: Network, enumerated: Result<seq<Device>, string>, lookup: Lookup,
                                    fails: Call -> Option<string>,
                                    enumerated': Result<seq<Device>, string>, lookup': Lookup)
    ensures var t := Trace(cfg, false, enumerated, lookup, fails);
      |t| > 0 && t[0] == CreateInactive(cfg.iface.name) && EnumerateDevices !in t
    ensures var r := Outcome(cfg, false, enumerated, lookup, fails);
      r.Success? ==> r.value == Handle(cfg.iface.name)
    ensures Trace(cfg, false, enumerated, lookup, fails) == Trace(cfg, false, enumerated', lookup', fails)
    ensures Outcome(cfg, false, enumerated, lookup, fails) == Outcome(cfg, false, enumerated', lookup', fails)
  {
    var d := cfg.iface.name;
    TraceOnDevice(cfg, false, enumerated, lookup, fails, d);
    TraceOnDevice(cfg, false, enumerated', lookup', fails, d);
    var plan, n := Plan(d, cfg), Attempted(d, cfg, fails);
    var t := SessionTrace(d, cfg, fails);
    assert t[0] == plan[0];
    assert forall j :: 0 <= j < n ==> plan[..n][j] != EnumerateDevices;
  }

  /**
   * On Windows the device list is enumerated first; a failed search ends the
   * construction with nothing else called, and a successful one opens the
   * session on the device the search named.
   */
  lemma WindowsSearchesFirst(cfg: Network, enumerated: Result<seq<Device>, string>, lookup: Lookup,
                             fails: Call -> Option<string>)
    ensures var t := Trace(cfg, true, enumerated, lookup, fails);
      |t| > 1 || t == [EnumerateDevices]
    ensures Trace(cfg, true, enumerated, lookup, fails)[0] == EnumerateDevices
    ensures var found := Resolve(enumerated, cfg.iface, lookup);
      found.Failure? ==>
        Trace(cfg, true, enumerated, lookup, fails) == [EnumerateDevices] &&
        Outcome(cfg, true, enumerated, lookup, fails) == Failure(DeviceNotFound(cfg.iface.name, found.error))
    ensures var found := Resolve(enumerated, cfg.iface, lookup);
      found.Success? ==>
        Trace(cfg, true, enumerated, lookup, fails)[1] == CreateInactive(found.value) &&
        (Outcome(cfg, true, enumerated, lookup, fails).Success? ==>
           Outcome(cfg, true, enumerated, lookup, fails).value == Handle(found.value))
  {
    var found := Resolve(enumerated, cfg.iface, lookup);
    if found.Success? {
      TraceOnDevice(cfg, true, enumerated, lookup, fails, found.value);
      assert SessionTrace(found.value, cfg, fails)[0] == CreateInactive(found.value);
    }
  }

  /**
   * A handle is returned only after the session was created, the five settings
   * were applied in their fixed order and activation succeeded, all without
   * error, and the inactive session was then cleaned up.
   */
  lemma SuccessAppliesEverySetting(cfg: Network, windows: bool, enumerated: Result<seq<Device>, string>,
                                   lookup: Lookup, fails: Call -> Option<string>)
    requires Outcome(cfg, windows, enumerated, lookup, fails).Success?
    ensures DeviceName(cfg, windows, enumerated, lookup).Success?
    ensures var d := DeviceName(cfg, windows, enumerated, lookup).value;
      Outcome(cfg, windows, enumerated, lookup, fails).value == Handle(d) &&
      Trace(cfg, windows, enumerated, lookup, fails) == Prefix(windows) +
        [CreateInactive(d),
         Configure(BufferSize(cfg.pcap.sockbuf)), Configure(SnapLen(65536)), Configure(Promisc(true)),
         Configure(ReadTimeout(BlockForever)), Configure(ImmediateMode(true)),
         ActivateSession, CleanUpSession] &&
      forall j :: 0 <= j < 7 ==> fails(Plan(d, cfg)[j]).None?
  {
    var d := DeviceName(cfg, windows, enumerated, lookup).value;
    TraceOnDevice(cfg, windows, enumerated, lookup, fails, d);
  }

  /**
   * A failing setting ends the construction at once: every earlier call
   * succeeded, no later setting and no activation is attempted, and the
   * inactive session is cleaned up.
   */
  lemma SettingFailureStopsThere(cfg: Network, windows: bool, enumerated: Result<seq<Device>, string>,
                                 lookup: Lookup, fails: Call -> Option<string>, s: Setting, cause: string)
    requires Outcome(cfg, windows, enumerated, lookup, fails) == Failure(SettingFailed(s, cause))
    ensures DeviceName(cfg, windows, enumerated, lookup).Success?
    ensures var d := DeviceName(cfg, windows, enumerated, lookup).value;
      exists i :: 0 <= i < 5 && Settings(cfg)[i] == s &&
        fails(Configure(s)) == Some(cause) &&
        (forall j :: 0 <= j <= i ==> fails(Plan(d, cfg)[j]).None?) &&
        Trace(cfg, windows, enumerated, lookup, fails) == Prefix(windows) + Plan(d, cfg)[..i + 2] + [CleanUpSession]
    ensures ActivateSession !in Trace(cfg, windows, enumerated, lookup, fails)
  {
    var d := DeviceName(cfg, windows, enumerated, lookup).value;
    TraceOnDevice(cfg, windows, enumerated, lookup, fails, d);
    var i := SessionSettingFailure(d, cfg, fails, s, cause);
    assert Trace(cfg, windows, enumerated, lookup, fails) == Prefix(windows) + (Plan(d, cfg)[..i + 2] + [CleanUpSession]);
  }

  /** `SettingFailureStopsThere` for one session on `device`: `i` is the position of the rejected setting. */
  lemma SessionSettingFailure(device: string, cfg: Network, fails: Call -> Option<string>, s: Setting, cause: string)
    returns (i: nat)
    requires SessionResult(device, cfg, fails) == Failure(SettingFailed(s, cause))
    ensures i < 5 && Settings(cfg)[i] == s && fails(Configure(s)) == Some(cause)
    ensures forall j :: 0 <= j <= i ==> fails(Plan(device, cfg)[j]).None?
    ensures SessionTrace(device, cfg, fails) == Plan(device, cfg)[..i + 2] + [CleanUpSession]
    ensures ActivateSession !in SessionTrace(device, cfg, fails)
  {
    var k := FirstFailure(device, cfg, fails);
    var plan := Plan(device, cfg);
    assert 1 <= k <= 5;
    assert Settings(cfg)[k - 1] == s && plan[k] == Configure(s);
    assert ActivateSession !in plan[..k + 1];
    i := k - 1;
  }

  /** A failed creation ends the construction with nothing to clean up. */
  lemma CreateFailureCleansNothing(cfg: Network, windows: bool, enumerated: Result<seq<Device>, string>,
                                   lookup: Lookup, fails: Call -> Option<string>, iface: string, cause: string)
    requires Outcome(cfg, windows, enumerated, lookup, fails) == Failure(CreateFailed(iface, cause))
    ensures DeviceName(cfg, windows, enumerated, lookup).Success?
    ensures var d := DeviceName(cfg, windows, enumerated, lookup).value;
      iface == cfg.iface.name && fails(CreateInactive(d)) == Some(cause) &&
      Trace(cfg, windows, enumerated, lookup, fails) == Prefix(windows) + [CreateInactive(d)]
  {
    var d := DeviceName(cfg, windows, enumerated, lookup).value;
    TraceOnDevice(cfg, windows, enumerated, lookup, fails, d);
  }

  /** A failed activation comes after all five settings succeeded, and is followed by the cleanup. */
  lemma ActivateFailureAfterAllSettings(cfg: Network, windows: bool, enumerated: Result<seq<Device>, string>,
                                        lookup: Lookup, fails: Call -> Option<string>, iface: string, cause: string)
    requires Outcome(cfg, windows, enumerated, lookup, fails) == Failure(ActivateFailed(iface, cause))
    ensures DeviceName(cfg, windows, enumerated, lookup).Success?
    ensures var d := DeviceName(cfg, windows, enumerated, lookup).value;
      iface == cfg.iface.name && fails(ActivateSession) == Some(cause) &&
      (forall j :: 0 <= j < 6 ==> fails(Plan(d, cfg)[j]).None?) &&
      Trace(cfg, windows, enumerated, lookup, fails) == Prefix(windows) + Plan(d, cfg) + [CleanUpSession]
  {
    var d := DeviceName(cfg, windows, enumerated, lookup).value;
    TraceOnDevice(cfg, windows, enumerated, lookup, fails, d);
  }

  /** The trace shows an inactive session that was created successfully. */
  ghost predicate SessionCreated(t: seq<Call>, fails: Call -> Option<string>)
  {
    exists i :: 0 <= i < |t| && t[i].CreateInactive? && fails(t[i]).None?
  }

  /**
   * Once the inactive session exists it is cleaned up exactly once, as the
   * very last call; before it exists it is never cleaned up.
   */
  lemma CleanUpExactlyOnce(cfg: Network, windows: bool, enumerated: Result<seq<Device>, string>,
                           lookup: Lookup, fails: Call -> Option<string>)
    ensures var t := Trace(cfg, windows, enumerated, lookup, fails);
      multiset(t)[CleanUpSession] == if SessionCreated(t, fails) then 1 else 0
    ensures var t := Trace(cfg, windows, enumerated, lookup, fails);
      SessionCreated(t, fails) ==> t[|t| - 1] == CleanUpSession
  {
    var t := Trace(cfg, windows, enumerated, lookup, fails);
    var pre := Prefix(windows);
    match DeviceName(cfg, windows, enumerated, lookup)
    case Failure(_) =>
      assert t == pre;
    case Success(d) =>
      TraceOnDevice(cfg, windows, enumerated, lookup, fails, d);
      SessionCleanUp(pre, d, cfg, fails);
  }

  /** The cleanup count of one session, after whatever calls `pre` made before it. */
  lemma SessionCleanUp(pre: seq<Call>, d: string, cfg: Network, fails: Call -> Option<string>)
    requires forall i :: 0 <= i < |pre| ==> pre[i] == EnumerateDevices
    ensures var t := pre + SessionTrace(d, cfg, fails);
      SessionCreated(t, fails) <==> FirstFailure(d, cfg, fails) > 0
    ensures var t := pre + SessionTrace(d, cfg, fails);
      multiset(t)[CleanUpSession] == if FirstFailure(d, cfg, fails) > 0 then 1 else 0
    ensures var t := pre + SessionTrace(d, cfg, fails);
      FirstFailure(d, cfg, fails) > 0 ==> t[|t| - 1] == CleanUpSession
  {
    var t := pre + SessionTrace(d, cfg, fails);
    var plan, n, k := Plan(d, cfg), Attempted(d, cfg, fails), FirstFailure(d, cfg, fails);
    var made := plan[..n];
    assert CleanUpSession !in pre;
    assert CleanUpSession !in made;
    assert t[|pre|] == CreateInactive(d);
    if k == 0 {
      assert t == pre + [CreateInactive(d)];
      forall i | 0 <= i < |t| && t[i].CreateInactive?
        ensures fails(t[i]).Some?
      {
        assert i == |pre|;
      }
    } else {
      assert t == pre + made + [CleanUpSession];
      assert fails(t[|pre|]).None?;
    }
  }

  /** A buffer size of 0 that the library rejects stops the construction at the first setting. */
  lemma ZeroBufferSizeScenario(iface: Interface, fails: Call -> Option<string>, cause: string)
    requires fails(CreateInactive(iface.name)).None?
    requires fails(Configure(BufferSize(0))) == Some(cause)
    ensures var cfg := Network(iface, PcapConfig(0));
      Outcome(cfg, false, Failure("unused"), None, fails) == Failure(SettingFailed(BufferSize(0), cause)) &&
      Trace(cfg, false, Failure("unused"), None, fails) ==
        [CreateInactive(iface.name), Configure(BufferSize(0)), CleanUpSession]
  {
    var cfg := Network(iface, PcapConfig(0));
    TraceOnDevice(cfg, false, Failure("unused"), None, fails, iface.name);
    FirstIndexAt(Plan(iface.name, cfg), Failing(fails), 1);
  }
}
