/**
 * The network-interface gateway: the NetworkManager (D-Bus) collector, the
 * .NET runtime enumeration, and the choice between them.
 *
 * The bus and the operating system are inputs: a device is the record of what
 * each of its property fetches produced, an OS interface the record of what
 * the runtime reported for it. An exception that SafeAsync does not absorb is
 * a fault flag on the input at the place the source would raise it.
 */
module NetworkService {
  import opened Wrappers
  import opened DotNet
  import opened SafeInvoke

  /** One value of an address-data dictionary (a D-Bus variant). */
  datatype DbusValue = DString(s: string) | DOther

  /** One entry of an IPv4Config/IPv6Config AddressData array. */
  type AddressEntry = map<string, DbusValue>

  /** An IPv4 or IPv6 configuration object reachable from a device. */
  datatype IpConfig = IpConfig(
    path: Fetch<string>,                   // the Ip4Config/Ip6Config object path
    proxyFails: bool,                      // creating the proxy for that path throws
    addressData: Fetch<seq<AddressEntry>>) // its AddressData property

  /** A NetworkManager device object, by what each fetch about it produced. */
  datatype Device = Device(
    proxyFails: bool,        // creating the device proxy throws
    iface: Fetch<string>,    // Interface
    hwAddress: Fetch<string>,
    state: Fetch<UInt32>,    // an NMDeviceState code
    speed: Fetch<UInt32>,    // Mb/s
    ip4: IpConfig,
    ip6: IpConfig)

  /** One interface as the runtime (System.Net.NetworkInformation) reports it. */
  datatype OsInterface = OsInterface(
    readFails: bool,             // reading name, description, MAC, status or speed throws
    name: string,
    description: Option<string>,
    physicalAddress: string,     // GetPhysicalAddress().ToString()
    operationalStatus: string,   // OperationalStatus.ToString()
    speed: Int64,                // b/s as the runtime reports it
    unicastAddresses: seq<string>, // the interface's unicast addresses
    ipFailsAt: Option<nat>)      // reading the IP properties throws once this many were added

  /** The NICInfo message. */
  datatype NicInfo = NicInfo(
    name: string,
    description: string,
    macAddress: string,
    status: string,
    speed: Int64,
    ipAddresses: seq<string>)

  const Loopback: string := "lo"
  /** ObjectPath.Root, the path NetworkManager uses for "no configuration". */
  const RootPath: string := "/"

  // ---------------------------------------------------------------------------
  // Pure pieces of the bus collector

  /** NmStateToString: NetworkManager's NMDeviceState codes, anything else "unknown". */
  function NmStateToString(state: UInt32): (r: string)
    ensures r == "activated" <==> state == 100
    ensures r == "connected (local)" <==> state == 50
    ensures r == "ip config" <==> state == 40
    ensures r == "disconnected" <==> state == 30
    ensures r == "unavailable" <==> state == 20
    ensures r == "down" <==> state == 10
    ensures r == "unknown" <==> state !in {100, 50, 40, 30, 20, 10}
  {
    match state
    case 100 => "activated"
    case 50 => "connected (local)"
    case 40 => "ip config"
    case 30 => "disconnected"
    case 20 => "unavailable"
    case 10 => "down"
    case _ => "unknown"
  }

  /** The Mb/s the bus reports, in b/s; the `long` product cannot overflow. */
  function BitsPerSecond(mbps: UInt32): (r: Int64)
    ensures 0 <= r <= 4_294_967_295_000_000
    ensures r % 1_000_000 == 0 && r / 1_000_000 == mbps
  {
    mbps * 1_000_000
  }

  /** The address an AddressData entry contributes: a non-blank string under "address". */
  function KeptAddress(e: AddressEntry): Option<string> {
    if "address" in e && e["address"].DString? && !IsWhiteSpaceOnly(e["address"].s)
    then Some(e["address"].s)
    else None
  }

  /** The addresses kept from an AddressData array, in array order. */
  function Addresses(es: seq<AddressEntry>): seq<string> {
    if es == [] then []
    else
      (match KeptAddress(es[0]) case Some(a) => [a] case None => []) + Addresses(es[1..])
  }

  /** True when a configuration path leads to a configuration object. */
  predicate UsablePath(p: Option<string>) {
    p.Some? && p.value != RootPath
  }

  /**
   * What one configuration object adds to a device's IP list; None when
   * creating its proxy throws (the exception leaves AddIpAddressesAsync).
   */
  function ConfigAddresses(c: IpConfig): Option<seq<string>> {
    if !UsablePath(SafeAsync(c.path)) then Some([])
    else if c.proxyFails then None
    else
      match SafeAsync(c.addressData)
      case None => Some([])
      case Some(es) => Some(Addresses(es))
  }

  /** What the collector loop does with one device. */
  datatype Step = Skip | Emit(nic: NicInfo) | Abort

  /** The record the collector builds for a surviving device and its IP list. */
  function BusNic(d: Device, name: string, ips: seq<string>): NicInfo {
    NicInfo(
      name, name,
      SafeAsync(d.hwAddress).GetOr(""),
      NmStateToString(SafeAsync(d.state).GetOr(0)),
      BitsPerSecond(SafeAsync(d.speed).GetOr(0)),
      ips)
  }

  /** One iteration of the device loop, as a value. */
  function DeviceStep(d: Device): Step {
    if d.proxyFails then Abort
    else
      var name := SafeAsync(d.iface);
      if name.None? || name.value == "" || name.value == Loopback then Skip
      else
        match ConfigAddresses(d.ip4)
        case None => Abort
        case Some(v4) =>
          match ConfigAddresses(d.ip6)
          case None => Abort
          case Some(v6) => Emit(BusNic(d, name.value, v4 + v6))
  }

  /**
   * The records the device loop appends, in device order; an exception stops
   * the loop and keeps what was appended before it.
   */
  function Collect(ds: seq<Device>): seq<NicInfo> {
    if ds == [] then []
    else
      match DeviceStep(ds[0])
      case Abort => []
      case Skip => Collect(ds[1..])
      case Emit(n) => [n] + Collect(ds[1..])
  }

  /** The collector's answer: empty when connecting or enumerating devices throws. */
  function NetworkManagerInterfaces(nm: Fetch<seq<Device>>): seq<NicInfo> {
    match nm
    case Threw => []
    case Got(ds) => Collect(ds)
  }

  // ---------------------------------------------------------------------------
  // The runtime enumeration and the choice

  /**
   * The addresses the per-interface try block adds before its reading
   * throws: all of them when nothing throws, otherwise the first `k`
   * (none when GetIPProperties itself throws).
   */
  function AddressesRead(ni: OsInterface): seq<string> {
    match ni.ipFailsAt
    case None => ni.unicastAddresses
    case Some(k) => if k < |ni.unicastAddresses| then ni.unicastAddresses[..k] else ni.unicastAddresses
  }

  /** The record the runtime path builds for one OS interface. */
  function RuntimeNic(ni: OsInterface): NicInfo {
    NicInfo(ni.name, ni.description.GetOr(ni.name), ni.physicalAddress,
            ni.operationalStatus, ni.speed, AddressesRead(ni))
  }

  /**
   * GetRuntimeNetworkInterfaces: one record per OS interface, in order; None
   * when the enumeration or an interface's attributes throw.
   */
  function RuntimeInterfaces(os: Fetch<seq<OsInterface>>): Option<seq<NicInfo>> {
    match os
    case Threw => None
    case Got(ns) =>
      if exists i :: 0 <= i < |ns| && ns[i].readFails then None
      else Some(seq(|ns|, i requires 0 <= i < |ns| => RuntimeNic(ns[i])))
  }

  /** GetNetworkInterfaces: the bus answer when on Linux and non-empty, else the runtime's. */
  function Gateway(isLinux: bool, nm: Fetch<seq<Device>>, os: Fetch<seq<OsInterface>>): seq<NicInfo> {
    if isLinux && |NetworkManagerInterfaces(nm)| > 0 then NetworkManagerInterfaces(nm)
    else RuntimeInterfaces(os).GetOr([])
  }

  // ---------------------------------------------------------------------------
  // The source's loops, proved against the functions above

  /** One `foreach (var entry in addressData)` loop of AddIpAddressesAsync. */
  method AppendAddresses(ips: seq<string>, entries: seq<AddressEntry>) returns (out: seq<string>)
    ensures out == ips + Addresses(entries)
  {
    out := ips;
    var i := 0;
    while i < |entries|
      invariant 0 <= i <= |entries|
      invariant out + Addresses(entries[i..]) == ips + Addresses(entries)
    {
      var entry := entries[i];
      assert entries[i..][1..] == entries[i + 1..];
      if "address" in entry && entry["address"].DString? && !IsWhiteSpaceOnly(entry["address"].s) {
        out := out + [entry["address"].s];
      }
      i := i + 1;
    }
  }

  /**
   * The part of AddIpAddressesAsync for one configuration object: ok is false
   * when creating its proxy throws.
   */
  method AddConfigAddresses(c: IpConfig, ips: seq<string>) returns (out: seq<string>, ok: bool)
    ensures ok <==> ConfigAddresses(c).Some?
    ensures ok ==> out == ips + ConfigAddresses(c).value
  {
    out, ok := ips, true;
    var path := SafeAsync(c.path);
    if path.Some? && path.value != RootPath {
      if c.proxyFails {
        ok := false;
        return;
      }
      var addressData := SafeAsync(c.addressData);
      if addressData.Some? {
        out := AppendAddresses(out, addressData.value);
      }
    }
  }

  /** AddIpAddressesAsync: the IPv4 addresses, then the IPv6 addresses. */
  method AddIpAddresses(d: Device, ips: seq<string>) returns (out: seq<string>, ok: bool)
    ensures ok <==> ConfigAddresses(d.ip4).Some? && ConfigAddresses(d.ip6).Some?
    ensures ok ==> out == ips + ConfigAddresses(d.ip4).value + ConfigAddresses(d.ip6).value
  {
    out, ok := AddConfigAddresses(d.ip4, ips);
    if ok {
      out, ok := AddConfigAddresses(d.ip6, out);
    }
  }

  /** Collect on a non-empty device sequence, by what the first device's step is. */
  lemma CollectUnfold(ds: seq<Device>)
    requires ds != []
    ensures DeviceStep(ds[0]).Abort? ==> Collect(ds) == []
    ensures DeviceStep(ds[0]).Skip? ==> Collect(ds) == Collect(ds[1..])
    ensures DeviceStep(ds[0]).Emit? ==> Collect(ds) == [DeviceStep(ds[0]).nic] + Collect(ds[1..])
  {
  }

  /**
   * The body of the device loop for one device: Skip for `continue`, Emit
   * for the record to append, Abort for an exception that leaves the loop.
   */
  method InspectDevice(dev: Device) returns (step: Step)
    ensures step == DeviceStep(dev)
  {
    if dev.proxyFails {
      return Abort;
    }
    var name := SafeAsync(dev.iface);
    if name.None? || name.value == "" || name.value == Loopback {
      return Skip;
    }
    var nic := BusNic(dev, name.value, []);
    var ips, ok := AddIpAddresses(dev, nic.ipAddresses);
    if !ok {
      return Abort;
    }
    step := Emit(nic.(ipAddresses := ips));
  }

  /**
   * The try block of GetNetworkInterfacesFromNetworkManagerAsync: the device
   * loop. An exception inside it leaves the loop with the records appended so far.
   */
  method CollectDevices(devices: seq<Device>) returns (interfaces: seq<NicInfo>)
    ensures interfaces == Collect(devices)
  {
    interfaces := [];
    var i := 0;
    while i < |devices|
      invariant 0 <= i <= |devices|
      invariant interfaces + Collect(devices[i..]) == Collect(devices)
    {
      var step := InspectDevice(devices[i]);
      CollectUnfold(devices[i..]);
      assert devices[i..][0] == devices[i] && devices[i..][1..] == devices[i + 1..];
      match step {
        case Abort =>
          return;  // the exception reaches the catch around the loop
        case Skip =>
        case Emit(nic) =>
          interfaces := interfaces + [nic];
      }
      i := i + 1;
    }
  }

  /** GetNetworkInterfacesFromNetworkManagerAsync: never throws. */
  method GetNetworkInterfacesFromNetworkManager(nm: Fetch<seq<Device>>) returns (interfaces: seq<NicInfo>)
    ensures interfaces == NetworkManagerInterfaces(nm)
  {
    interfaces := [];
    if nm.Got? {
      interfaces := CollectDevices(nm.value);
    }
  }

  /** GetRuntimeNetworkInterfaces; None when an exception leaves it. */
  method GetRuntimeNetworkInterfaces(os: Fetch<seq<OsInterface>>) returns (response: Option<seq<NicInfo>>)
    ensures response == RuntimeInterfaces(os)
  {
    if os.Threw? {
      return None;
    }
    var ns := os.value;
    var interfaces: seq<NicInfo> := [];
    var i := 0;
    while i < |ns|
      invariant 0 <= i <= |ns|
      invariant |interfaces| == i
      invariant forall k :: 0 <= k < i ==> !ns[k].readFails && interfaces[k] == RuntimeNic(ns[k])
    {
      var ni := ns[i];
      if ni.readFails {
        assert ns[i].readFails;
        return None;
      }
      var info := NicInfo(ni.name, ni.description.GetOr(ni.name), ni.physicalAddress,
                          ni.operationalStatus, ni.speed, []);
      // The per-interface try block: a failure leaves the loop (the catch),
      // keeping the addresses added so far, and the interface stays.
      var j: nat := 0;
      while j < |ni.unicastAddresses| && ni.ipFailsAt != Some(j)
        invariant j <= |ni.unicastAddresses|
        invariant ni.ipFailsAt.Some? ==> j <= ni.ipFailsAt.value
        invariant info == RuntimeNic(ni).(ipAddresses := ni.unicastAddresses[..j])
      {
        info := info.(ipAddresses := info.ipAddresses + [ni.unicastAddresses[j]]);
        assert ni.unicastAddresses[..j + 1] == ni.unicastAddresses[..j] + [ni.unicastAddresses[j]];
        j := j + 1;
      }
      assert ni.unicastAddresses[..j] == AddressesRead(ni);
      interfaces := interfaces + [info];
      i := i + 1;
    }
    assert interfaces == seq(|ns|, k requires 0 <= k < |ns| => RuntimeNic(ns[k]));
    response := Some(interfaces);
  }

  /** GetNetworkInterfaces: never fails; an escaping exception yields the empty list. */
  method GetNetworkInterfaces(isLinux: bool, nm: Fetch<seq<Device>>, os: Fetch<seq<OsInterface>>)
    returns (interfaces: seq<NicInfo>)
    ensures interfaces == Gateway(isLinux, nm, os)
  {
    if isLinux {
      var linux := GetNetworkInterfacesFromNetworkManager(nm);
      if |linux| > 0 {
        return linux;
      }
    }
    var fallback := GetRuntimeNetworkInterfaces(os);
    if fallback.None? {
      return [];  // the catch block: a new, empty NetworkInterfaceList
    }
    interfaces := fallback.value;
  }

  // ---------------------------------------------------------------------------
  // Properties of the model

  /** The records the devices would yield if no exception occurred, in device order. */
  function Emitted(ds: seq<Device>): seq<NicInfo> {
    if ds == [] then [] else StepRecords(DeviceStep(ds[0])) + Emitted(ds[1..])
  }

  /** The record a step appends, if any. */
  function StepRecords(step: Step): seq<NicInfo> {
    if step.Emit? then [step.nic] else []
  }

  /** The index of the first device whose processing throws, or |ds| if none does. */
  function FirstException(ds: seq<Device>): (k: nat)
    ensures k <= |ds|
    ensures forall j :: 0 <= j < k ==> !DeviceStep(ds[j]).Abort?
    ensures k < |ds| ==> DeviceStep(ds[k]).Abort?
  {
    if ds == [] then 0
    else if DeviceStep(ds[0]).Abort? then 0
    else 1 + FirstException(ds[1..])
  }

  /** Emitted distributes over concatenation: the output follows device order. */
  lemma {:induction false} EmittedConcat(a: seq<Device>, b: seq<Device>)
    ensures Emitted(a + b) == Emitted(a) + Emitted(b)
  {
    if a == [] {
      assert a + b == b;
    } else {
      assert (a + b)[0] == a[0] && (a + b)[1..] == a[1..] + b;
      EmittedConcat(a[1..], b);
    }
  }

  /**
   * An exception in the device loop keeps every record appended before it:
   * the collector yields exactly the records of the devices before the first
   * exception, in order, and the list is not cleared.
   */
  lemma {:induction false} CollectKeepsRecordsBeforeException(ds: seq<Device>)
    ensures Collect(ds) == Emitted(ds[..FirstException(ds)])
  {
    if ds == [] {
    } else if DeviceStep(ds[0]).Abort? {
      assert ds[..0] == [];
    } else {
      var tail := ds[1..];
      var k := FirstException(tail);
      CollectKeepsRecordsBeforeException(tail);
      var pre := ds[..1 + k];
      assert pre[0] == ds[0] && pre[1..] == tail[..k];
      assert Emitted(pre) == StepRecords(DeviceStep(ds[0])) + Emitted(tail[..k]);
      assert Collect(ds) == StepRecords(DeviceStep(ds[0])) + Collect(tail);
    }
  }

  /** Without exceptions every surviving device yields its record, in device order. */
  lemma CollectWithoutException(ds: seq<Device>)
    requires forall j :: 0 <= j < |ds| ==> !DeviceStep(ds[j]).Abort?
    ensures Collect(ds) == Emitted(ds)
  {
    CollectKeepsRecordsBeforeException(ds);
    assert ds[..|ds|] == ds;
  }

  /** A device that yields a record contributes it to Emitted, the output when no device throws. */
  lemma {:induction false} EmittedHasEveryRecord(ds: seq<Device>, j: nat)
    requires j < |ds| && DeviceStep(ds[j]).Emit?
    ensures DeviceStep(ds[j]).nic in Emitted(ds)
  {
    assert Emitted(ds) == StepRecords(DeviceStep(ds[0])) + Emitted(ds[1..]);
    if j > 0 {
      assert ds[1..][j - 1] == ds[j];
      EmittedHasEveryRecord(ds[1..], j - 1);
    }
  }

  /**
   * In the collector's actual output: every device before the first
   * exception that passes the filter has its record there.
   */
  lemma CollectHasEveryRecordBeforeException(ds: seq<Device>, j: nat)
    requires j < FirstException(ds) && DeviceStep(ds[j]).Emit?
    ensures DeviceStep(ds[j]).nic in Collect(ds)
  {
    var pre := ds[..FirstException(ds)];
    CollectKeepsRecordsBeforeException(ds);
    assert pre[j] == ds[j];
    EmittedHasEveryRecord(pre, j);
  }

  /**
   * The bus collector never reports a device with an empty name or the
   * loopback name, and yields at most one record per device.
   */
  lemma {:induction false} CollectNeverLoopback(ds: seq<Device>)
    ensures |Collect(ds)| <= |ds|
    ensures forall k :: 0 <= k < |Collect(ds)| ==> Collect(ds)[k].name != "" && Collect(ds)[k].name != Loopback
  {
    if ds != [] {
      CollectNeverLoopback(ds[1..]);
    }
  }

  /**
   * The record a surviving device yields: its interface name as name and
   * description, the hardware address or "", the mapped state, the speed in
   * b/s, and the IPv4 addresses followed by the IPv6 addresses.
   */
  lemma BusRecordFields(d: Device)
    requires DeviceStep(d).Emit?
    ensures !d.proxyFails && d.iface.Got?
    ensures DeviceStep(d).nic.name == d.iface.value && d.iface.value !in {"", Loopback}
    ensures DeviceStep(d).nic.description == d.iface.value
    ensures DeviceStep(d).nic.macAddress == (if d.hwAddress.Got? then d.hwAddress.value else "")
    ensures DeviceStep(d).nic.status == NmStateToString(if d.state.Got? then d.state.value else 0)
    ensures DeviceStep(d).nic.speed == (if d.speed.Got? then d.speed.value * 1_000_000 else 0)
    ensures ConfigAddresses(d.ip4).Some? && ConfigAddresses(d.ip6).Some?
    ensures DeviceStep(d).nic.ipAddresses == ConfigAddresses(d.ip4).value + ConfigAddresses(d.ip6).value
  {
  }

  /** A failed state fetch reads as 0, which maps to "unknown"; a failed speed fetch as 0 b/s. */
  lemma FailedFetchDefaults(d: Device)
    requires DeviceStep(d).Emit?
    ensures d.state.Threw? ==> DeviceStep(d).nic.status == "unknown"
    ensures d.speed.Threw? ==> DeviceStep(d).nic.speed == 0
    ensures d.hwAddress.Threw? ==> DeviceStep(d).nic.macAddress == ""
  {
  }

  /** Addresses distributes over concatenation: the kept addresses stay in array order. */
  lemma {:induction false} AddressesConcat(a: seq<AddressEntry>, b: seq<AddressEntry>)
    ensures Addresses(a + b) == Addresses(a) + Addresses(b)
  {
    if a == [] {
      assert a + b == b;
    } else {
      assert (a + b)[0] == a[0] && (a + b)[1..] == a[1..] + b;
      AddressesConcat(a[1..], b);
    }
  }

  /**
   * Every kept address is the non-blank string under "address" of some entry,
   * and there are at most as many as entries.
   */
  lemma {:induction false} AddressesSound(es: seq<AddressEntry>)
    ensures |Addresses(es)| <= |es|
    ensures forall k :: 0 <= k < |Addresses(es)| ==>
      exists i :: 0 <= i < |es| && KeptAddress(es[i]) == Some(Addresses(es)[k])
    ensures forall k :: 0 <= k < |Addresses(es)| ==> !IsWhiteSpaceOnly(Addresses(es)[k])
  {
    if es != [] {
      AddressesSound(es[1..]);
      var head := match KeptAddress(es[0]) case Some(a) => [a] case None => [];
      assert Addresses(es) == head + Addresses(es[1..]);
      forall k | 0 <= k < |Addresses(es)|
        ensures exists i :: 0 <= i < |es| && KeptAddress(es[i]) == Some(Addresses(es)[k])
      {
        if k < |head| {
          assert KeptAddress(es[0]) == Some(Addresses(es)[k]);
        } else {
          var i :| 0 <= i < |es[1..]| && KeptAddress(es[1..][i]) == Some(Addresses(es[1..])[k - |head|]);
          assert KeptAddress(es[i + 1]) == Some(Addresses(es)[k]);
        }
      }
    }
  }

  /** Every entry holding a non-blank string address contributes it. */
  lemma AddressesComplete(es: seq<AddressEntry>, i: nat)
    requires i < |es| && KeptAddress(es[i]).Some?
    ensures KeptAddress(es[i]).value in Addresses(es)
  {
    assert es == es[..i] + ([es[i]] + es[i + 1..]);
    AddressesConcat(es[..i], [es[i]] + es[i + 1..]);
    AddressesConcat([es[i]], es[i + 1..]);
    assert Addresses([es[i]]) == [KeptAddress(es[i]).value] + Addresses([]);
  }

  /** A null or root configuration path, or a failed AddressData fetch, contributes nothing. */
  lemma EmptyConfigContributesNothing(c: IpConfig)
    ensures !UsablePath(SafeAsync(c.path)) ==> ConfigAddresses(c) == Some([])
    ensures UsablePath(SafeAsync(c.path)) && !c.proxyFails && c.addressData.Threw?
      ==> ConfigAddresses(c) == Some([])
  {
  }

  /**
   * The runtime path: one record per OS interface, in order, loopback
   * included; the description defaults to the name; the IP list is the
   * interface's addresses in order, all of them when reading does not fail
   * and a prefix of them when it does.
   */
  lemma RuntimeOneRecordPerInterface(ns: seq<OsInterface>)
    requires forall i :: 0 <= i < |ns| ==> !ns[i].readFails
    ensures RuntimeInterfaces(Got(ns)).Some?
    ensures |RuntimeInterfaces(Got(ns)).value| == |ns|
    ensures forall i :: 0 <= i < |ns| ==>
      var r := RuntimeInterfaces(Got(ns)).value[i];
      && r.name == ns[i].name
      && r.description == (if ns[i].description.Some? then ns[i].description.value else ns[i].name)
      && r.macAddress == ns[i].physicalAddress
      && r.status == ns[i].operationalStatus
      && r.speed == ns[i].speed
      && r.ipAddresses <= ns[i].unicastAddresses
      && (ns[i].ipFailsAt.None? ==> r.ipAddresses == ns[i].unicastAddresses)
  {
  }

  /**
   * A failure reading one interface's IP properties, after `k` addresses,
   * neither drops that interface nor touches any other record: its record
   * keeps every other field and holds exactly the first `k` addresses.
   */
  lemma IpReadFailureKeepsInterface(ns: seq<OsInterface>, i: nat, k: nat)
    requires i < |ns| && ns[i].ipFailsAt.None?
    ensures var ns' := ns[i := ns[i].(ipFailsAt := Some(k))];
      && RuntimeInterfaces(Got(ns')).Some? == RuntimeInterfaces(Got(ns)).Some?
      && (RuntimeInterfaces(Got(ns)).Some? ==>
            var before := RuntimeInterfaces(Got(ns)).value;
            var after := RuntimeInterfaces(Got(ns')).value;
            && |after| == |before| == |ns|
            && after[i] == before[i].(ipAddresses := ns[i].unicastAddresses[..if k < |ns[i].unicastAddresses| then k else |ns[i].unicastAddresses|])
            && forall m :: 0 <= m < |ns| && m != i ==> after[m] == before[m])
  {
    var ns' := ns[i := ns[i].(ipFailsAt := Some(k))];
    assert forall m :: 0 <= m < |ns| ==> ns'[m].readFails == ns[m].readFails;
    assert ns[i].unicastAddresses[..|ns[i].unicastAddresses|] == ns[i].unicastAddresses;
    if exists m :: 0 <= m < |ns| && ns[m].readFails {
      var m :| 0 <= m < |ns| && ns[m].readFails;
      assert ns'[m].readFails;
    }
  }

  /**
   * The gateway's choice: the bus answer on Linux when it is non-empty;
   * otherwise the runtime enumeration, or the empty list when that throws.
   */
  lemma GatewayChoice(isLinux: bool, nm: Fetch<seq<Device>>, os: Fetch<seq<OsInterface>>)
    ensures isLinux && NetworkManagerInterfaces(nm) != [] ==> Gateway(isLinux, nm, os) == NetworkManagerInterfaces(nm)
    ensures !isLinux ==> Gateway(isLinux, nm, os) == RuntimeInterfaces(os).GetOr([])
    ensures NetworkManagerInterfaces(nm) == [] ==> Gateway(isLinux, nm, os) == RuntimeInterfaces(os).GetOr([])
    ensures nm.Threw? ==> Gateway(isLinux, nm, os) == RuntimeInterfaces(os).GetOr([])
  {
  }

  /**
   * Whatever the gateway returns is either the runtime enumeration, the empty
   * list, or a non-empty bus answer that holds no loopback or unnamed device.
   */
  lemma GatewayResult(isLinux: bool, nm: Fetch<seq<Device>>, os: Fetch<seq<OsInterface>>)
    ensures var r := Gateway(isLinux, nm, os);
      || (RuntimeInterfaces(os).Some? && r == RuntimeInterfaces(os).value)
      || r == []
      || (isLinux && nm.Got? && |r| <= |nm.value| &&
          forall k :: 0 <= k < |r| ==> r[k].name != "" && r[k].name != Loopback)
  {
    if nm.Got? {
      CollectNeverLoopback(nm.value);
    }
  }

  /** A device whose every fetch succeeds, with no IP configuration. */
  function PlainDevice(name: string, state: UInt32, mbps: UInt32): Device {
    var none := IpConfig(Got(RootPath), false, Threw);
    Device(false, Got(name), Got("00:11:22:33:44:55"), Got(state), Got(mbps), none, none)
  }

  /** Devices "lo" and "eth0": only eth0 is reported, activated at 1,000,000,000 b/s. */
  lemma LoopbackSkippedExample()
    ensures var r := Collect([PlainDevice("lo", 100, 0), PlainDevice("eth0", 100, 1000)]);
      && |r| == 1
      && r[0] == NicInfo("eth0", "eth0", "00:11:22:33:44:55", "activated", 1_000_000_000, [])
  {
    var ds := [PlainDevice("lo", 100, 0), PlainDevice("eth0", 100, 1000)];
    assert ds[1..][1..] == [];
  }

  /** State 999 maps to "unknown". */
  lemma UnknownStateExample()
    ensures NmStateToString(999) == "unknown"
  {
  }
}
