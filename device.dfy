/**
 * `findWindowsPcapDevice`: map an OS network interface to the name of the
 * pcap device that captures on it. The pcap device list and the OS's view of
 * the interface's addresses are inputs; the search itself is the loop of the
 * source, proved equal to a first-match specification.
 */
module PcapDevice {
  import opened Wrappers
  import opened Seqs
  import opened Strings
  import opened Net

  /**
   * A device reported by `pcap.FindAllDevs`: its backend name, free-text
   * description and, per bound address, the IP (`None` for a nil IP).
   */
  datatype Device = Device(name: string, description: string, addresses: seq<Option<IP>>)

  datatype ResolveError =
    | EnumerationFailed(cause: string)
    | NoMatchingDevice(iface: string, mac: string)

  /**
   * What the OS answers for `net.InterfaceByName(iface.Name)` followed by
   * `Addrs()`: `None` when the lookup fails; otherwise the addresses, empty
   * when `Addrs()` fails (its error is discarded).
   */
  type Lookup = Option<seq<Addr>>

  /** Some `*net.IPNet` address of the looked-up interface equals `ip`. */
  predicate BoundToInterface(ip: IP, lookup: Lookup)
  {
    lookup.Some? &&
    exists j :: 0 <= j < |lookup.value| && lookup.value[j].IPNet? && IPEqual(lookup.value[j].ip, ip)
  }

  /** Rule (a): a non-nil address of the device is bound to the interface. */
  predicate AddressRule(d: Device, lookup: Lookup)
  {
    exists i :: 0 <= i < |d.addresses| && d.addresses[i].Some? && BoundToInterface(d.addresses[i].value, lookup)
  }

  /** Rule (b): the lower-cased description contains the lower-cased interface name. */
  predicate DescriptionRule(d: Device, iface: Interface)
  {
    Contains(ToLower(d.description), ToLower(iface.name))
  }

  /** Rule (c): the device name contains the decimal interface index, case-sensitively. */
  predicate IndexRule(d: Device, iface: Interface)
  {
    Contains(d.name, FormatInt(iface.index))
  }

  /** The test of the first loop: rule (a), else rule (b), for one device. */
  function FirstLoopTest(iface: Interface, lookup: Lookup): Device -> bool
  {
    d => AddressRule(d, lookup) || DescriptionRule(d, iface)
  }

  /** The test of the fallback loop: rule (c). */
  function IndexTest(iface: Interface): Device -> bool
  {
    d => IndexRule(d, iface)
  }

  /**
   * The device name the search settles on: the first device passing rule (a)
   * or (b); failing that, the first passing rule (c); failing that, an error
   * naming the interface and its MAC.
   */
  function Resolve(enumerated: Result<seq<Device>, string>, iface: Interface, lookup: Lookup): (r: Result<string, ResolveError>)
    ensures enumerated.Failure? ==> r == Failure(EnumerationFailed(enumerated.error))
    ensures r.Success? ==>
      enumerated.Success? && exists i :: 0 <= i < |enumerated.value| && enumerated.value[i].name == r.value
    ensures r.Failure? && enumerated.Success? ==> r.error == NoMatchingDevice(iface.name, iface.mac)
  {
    match enumerated
    case Failure(cause) => Failure(EnumerationFailed(cause))
    case Success(devices) =>
      var k := FirstIndex(devices, FirstLoopTest(iface, lookup));
      if k < |devices| then Success(devices[k].name)
      else
        var m := FirstIndex(devices, IndexTest(iface));
        if m < |devices| then Success(devices[m].name)
        else Failure(NoMatchingDevice(iface.name, iface.mac))
  }

  /**
   * The search as the source runs it: for each device, its addresses against
   * the interface's addresses, then its description; after that loop, the
   * device names against the index. The outcome of `pcap.FindAllDevs` and of
   * the OS lookup are passed in.
   */
  method FindWindowsPcapDevice(enumerated: Result<seq<Device>, string>, iface: Interface, lookup: Lookup)
    returns (r: Result<string, ResolveError>)
    ensures r == Resolve(enumerated, iface, lookup)
  {
    if enumerated.Failure? {
      return Failure(EnumerationFailed(enumerated.error));
    }
    var devices := enumerated.value;
    var targetMAC := iface.mac;
    var ifaceName := ToLower(iface.name);

    for i := 0 to |devices|
      invariant forall j :: 0 <= j < i ==> !FirstLoopTest(iface, lookup)(devices[j])
    {
      var device := devices[i];
      for a := 0 to |device.addresses|
        invariant forall b :: 0 <= b < a ==>
          !(device.addresses[b].Some? && BoundToInterface(device.addresses[b].value, lookup))
      {
        var addr := device.addresses[a];
        if addr.Some? {
          if lookup.Some? {
            var addrs := lookup.value;
            for n := 0 to |addrs|
              invariant forall m :: 0 <= m < n ==> !(addrs[m].IPNet? && IPEqual(addrs[m].ip, addr.value))
            {
              if addrs[n].IPNet? && IPEqual(addrs[n].ip, addr.value) {
                FirstIndexAt(devices, FirstLoopTest(iface, lookup), i);
                return Success(device.name);
              }
            }
          }
        }
      }
      if Contains(ToLower(device.description), ifaceName) {
        FirstIndexAt(devices, FirstLoopTest(iface, lookup), i);
        return Success(device.name);
      }
    }
    FirstIndexAt(devices, FirstLoopTest(iface, lookup), |devices|);

    var ifaceIndex := FormatInt(iface.index);
    for i := 0 to |devices|
      invariant forall j :: 0 <= j < i ==> !IndexTest(iface)(devices[j])
    {
      if Contains(devices[i].name, ifaceIndex) {
        FirstIndexAt(devices, IndexTest(iface), i);
        return Success(devices[i].name);
      }
    }
    FirstIndexAt(devices, IndexTest(iface), |devices|);
    return Failure(NoMatchingDevice(iface.name, targetMAC));
  }

  /**
   * First match wins across rules (a) and (b): the first device passing either
   * is chosen, whatever later devices would match and by which rule.
   */
  lemma ResolveFirstLoopMatch(devices: seq<Device>, iface: Interface, lookup: Lookup, i: nat)
    requires i < |devices|
    requires AddressRule(devices[i], lookup) || DescriptionRule(devices[i], iface)
    requires forall j :: 0 <= j < i ==> !AddressRule(devices[j], lookup) && !DescriptionRule(devices[j], iface)
    ensures Resolve(Success(devices), iface, lookup) == Success(devices[i].name)
  {
    FirstIndexAt(devices, FirstLoopTest(iface, lookup), i);
  }

  /**
   * Rule (c) is consulted only when no device passes (a) or (b), and then the
   * first device passing (c) is chosen.
   */
  lemma ResolveIndexFallback(devices: seq<Device>, iface: Interface, lookup: Lookup, m: nat)
    requires forall j :: 0 <= j < |devices| ==> !AddressRule(devices[j], lookup) && !DescriptionRule(devices[j], iface)
    requires m < |devices| && IndexRule(devices[m], iface)
    requires forall j :: 0 <= j < m ==> !IndexRule(devices[j], iface)
    ensures Resolve(Success(devices), iface, lookup) == Success(devices[m].name)
  {
    FirstIndexAt(devices, FirstLoopTest(iface, lookup), |devices|);
    FirstIndexAt(devices, IndexTest(iface), m);
  }

  /**
   * Device `i` is a legitimate pick: no device passes (a) or (b) before it, and
   * it passes (a) or (b) itself, or no device at all passes (a) or (b) and it is
   * the first to pass (c).
   */
  ghost predicate IsChosen(devices: seq<Device>, iface: Interface, lookup: Lookup, i: int)
    requires 0 <= i < |devices|
  {
    (forall j :: 0 <= j < i ==> !AddressRule(devices[j], lookup) && !DescriptionRule(devices[j], iface)) &&
    (AddressRule(devices[i], lookup) || DescriptionRule(devices[i], iface) ||
     ((forall j :: 0 <= j < |devices| ==> !AddressRule(devices[j], lookup) && !DescriptionRule(devices[j], iface)) &&
      IndexRule(devices[i], iface) &&
      (forall j :: 0 <= j < i ==> !IndexRule(devices[j], iface))))
  }

  /**
   * The converse: a successful search names a device that passes a rule, with
   * no device passing (a) or (b) before it, and it chose rule (c) only when no
   * device at all passes (a) or (b).
   */
  lemma ResolveSuccessWitness(devices: seq<Device>, iface: Interface, lookup: Lookup)
    requires Resolve(Success(devices), iface, lookup).Success?
    ensures exists i :: 0 <= i < |devices| && IsChosen(devices, iface, lookup, i) && devices[i].name == Resolve(Success(devices), iface, lookup).value
  {
    var k := FirstIndex(devices, FirstLoopTest(iface, lookup));
    if k < |devices| {
      assert FirstLoopTest(iface, lookup)(devices[k]);
    } else {
      var m := FirstIndex(devices, IndexTest(iface));
      assert IndexTest(iface)(devices[m]);
    }
  }

  /** The search fails after enumeration exactly when no device passes any of the three rules. */
  lemma ResolveFailsIffNoRule(devices: seq<Device>, iface: Interface, lookup: Lookup)
    ensures Resolve(Success(devices), iface, lookup) == Failure(NoMatchingDevice(iface.name, iface.mac)) <==>
      forall j :: 0 <= j < |devices| ==>
        !AddressRule(devices[j], lookup) && !DescriptionRule(devices[j], iface) && !IndexRule(devices[j], iface)
  {
    var k := FirstIndex(devices, FirstLoopTest(iface, lookup));
    var m := FirstIndex(devices, IndexTest(iface));
    if k < |devices| {
      assert FirstLoopTest(iface, lookup)(devices[k]);
    } else if m < |devices| {
      assert IndexTest(iface)(devices[m]);
    } else {
      forall j | 0 <= j < |devices|
        ensures !AddressRule(devices[j], lookup) && !DescriptionRule(devices[j], iface) && !IndexRule(devices[j], iface)
      {
        assert !FirstLoopTest(iface, lookup)(devices[j]);
        assert !IndexTest(iface)(devices[j]);
      }
    }
  }

  /** When the OS lookup of the interface fails, rule (a) never fires, whatever the device's addresses. */
  lemma FailedLookupDisablesAddressRule(d: Device)
    ensures !AddressRule(d, None)
  {
  }

  /** Rule (b) ignores the case of the interface name. */
  lemma DescriptionRuleIgnoresNameCase(d: Device, iface: Interface)
    ensures DescriptionRule(d, iface) == DescriptionRule(d, iface.(name := ToLower(iface.name)))
  {
    ToLowerIdempotent(iface.name);
  }

  /**
   * Rule (c) compares case-sensitively, but the decimal index has no letters,
   * so lower-casing the device name would not change its outcome.
   */
  lemma IndexRuleIgnoresNameCase(d: Device, iface: Interface)
    ensures IndexRule(d, iface) == Contains(ToLower(d.name), FormatInt(iface.index))
  {
    ContainsLetterFree(d.name, FormatInt(iface.index));
  }

  /** A description that begins with the interface name, up to case, passes rule (b). */
  lemma DescriptionStartsWithName(d: Device, iface: Interface)
    requires |iface.name| <= |d.description|
    requires forall k :: 0 <= k < |iface.name| ==> LowerChar(d.description[k]) == LowerChar(iface.name[k])
    ensures DescriptionRule(d, iface)
  {
    var low, name := ToLower(d.description), ToLower(iface.name);
    assert low[..|name|] == name;
    assert OccursAt(low, name, 0);
  }

  const Eth0: Interface := Interface("eth0", "aa:bb:cc:dd:ee:ff", 3)
  const Addr10005: IP := [10, 0, 0, 5]

  /** A device whose address is bound to the interface is chosen by rule (a). */
  lemma AddressMatchScenario()
    ensures Resolve(Success([Device("dev0", "Generic Ethernet Adapter", [Some(Addr10005)])]), Eth0, Some([IPNet(Addr10005)]))
         == Success("dev0")
  {
    var d := Device("dev0", "Generic Ethernet Adapter", [Some(Addr10005)]);
    var lookup: Lookup := Some([IPNet(Addr10005)]);
    assert lookup.value[0].IPNet? && IPEqual(lookup.value[0].ip, Addr10005);
    assert d.addresses[0].Some? && BoundToInterface(d.addresses[0].value, lookup);
    ResolveFirstLoopMatch([d], Eth0, Some([IPNet(Addr10005)]), 0);
  }

  /** A description holding the interface name, in any case, is chosen by rule (b). */
  lemma DescriptionMatchScenario()
    ensures Resolve(Success([Device("dev0", "ETH0 Controller", [])]), Eth0, Some([])) == Success("dev0")
  {
    var d := Device("dev0", "ETH0 Controller", []);
    DescriptionStartsWithName(d, Eth0);
    ResolveFirstLoopMatch([d], Eth0, Some([]), 0);
  }

  /** With no address or description match, a device name holding the index is chosen by rule (c). */
  lemma IndexMatchScenario()
    ensures Resolve(Success([Device("\\Device\\NPF_3", "", [])]), Eth0, Some([])) == Success("\\Device\\NPF_3")
  {
    var d := Device("\\Device\\NPF_3", "", []);
    assert FormatInt(3) == "3";
    assert OccursAt(d.name, "3", 12);
    ResolveIndexFallback([d], Eth0, Some([]), 0);
  }

  /**
   * Rules (a) and (b) share one pass over the devices: an earlier device that
   * matches only by description beats a later device that matches by address.
   */
  lemma EarlierDescriptionBeatsLaterAddress()
    ensures Resolve(Success([Device("\\Device\\NPF_{A}", "eth0 Controller", []),
                             Device("\\Device\\NPF_{B}", "", [Some(Addr10005)])]),
                    Eth0, Some([IPNet(Addr10005)]))
         == Success("\\Device\\NPF_{A}")
  {
    var d0 := Device("\\Device\\NPF_{A}", "eth0 Controller", []);
    DescriptionStartsWithName(d0, Eth0);
    ResolveFirstLoopMatch([d0, Device("\\Device\\NPF_{B}", "", [Some(Addr10005)])], Eth0, Some([IPNet(Addr10005)]), 0);
  }
}
