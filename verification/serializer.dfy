/**
 * The two-pass descriptor serializer (`usb_deviceinfo`).
 *
 * Called without a buffer, it only adds up the sizes of the records it would
 * write; called with one, it writes a device-info record followed by one
 * record per configuration, interface, alternate setting, endpoint
 * descriptor and pipe, contiguously, and stores every reference as the byte
 * offset of the record it points at.
 *
 * The flat buffer is a sequence of records in the order they are written;
 * the byte offset of a record is the sum of the sizes of the records before
 * it. A reference slot is an `Option<nat>`: `None` is a slot the serializer
 * has not (yet) written, which in the caller's buffer keeps whatever it held.
 */
module Serializer {

  import opened Usb
  import opened Abi

  // ---------------------------------------------------------------------
  // Records of the flat buffer
  // ---------------------------------------------------------------------

  datatype PipeInfo = PipeInfo(
    number: nat, maxPacketSize: nat, pipeType: nat, direction: nat, interval: nat)

  /** The configuration descriptor fields copied into a configuration record. */
  datatype ConfigDescriptor = ConfigDescriptor(
    bLength: Byte, bDescriptorType: Byte, wTotalLength: Word, bNumInterfaces: nat,
    bConfigurationValue: Byte, iConfiguration: Byte, bmAttributes: Byte, MaxPower: Byte)

  /** The interface descriptor fields copied into an alternate-setting record. */
  datatype InterfaceDescriptor = InterfaceDescriptor(
    bLength: Byte, bDescriptorType: Byte, bInterfaceNumber: Byte,
    bAlternateSetting: Byte, bNumEndpoints: nat, bInterfaceClass: Byte,
    bInterfaceSubClass: Byte, bInterfaceProtocol: Byte, iInterface: Byte)

  datatype Record =
    | DeviceInfoRec(
        bLength: nat, descriptor: DeviceDescriptor, bNumConfigurations: nat,
        pipe0: PipeInfo, pConfigs: Option<nat>, pActiveConfig: Option<nat>,
        pActiveInterface: map<nat, nat>)
    | ConfigRec(config: ConfigDescriptor, dwNumInterfaces: nat, pInterfaces: Option<nat>)
    | InterfaceRec(
        dwNumAltSettings: nat, pAlternateSettings: Option<nat>,
        pActiveAltSetting: Option<nat>)
    | AltSettingRec(
        iface: InterfaceDescriptor, pEndpointDescriptors: Option<nat>, pPipes: Option<nat>)
    | EndpointRec(endpoint: Endpoint)
    | PipeRec(pipe: PipeInfo)

  function RecordSize(abi: Abi, r: Record): nat {
    match r
    case DeviceInfoRec(_, _, _, _, _, _, _) => abi.deviceInfoSize
    case ConfigRec(_, _, _) => abi.configSize
    case InterfaceRec(_, _, _) => abi.interfaceSize
    case AltSettingRec(_, _, _) => abi.altSettingSize
    case EndpointRec(_) => abi.endpointSize
    case PipeRec(_) => abi.pipeInfoSize
  }

  /** The number of bytes a sequence of records occupies. */
  function RecordsSize(abi: Abi, recs: seq<Record>): nat {
    if recs == [] then 0 else RecordSize(abi, recs[0]) + RecordsSize(abi, recs[1..])
  }

  // ---------------------------------------------------------------------
  // Pipe information (section 9.6.6 of the USB 2.0 specification)
  // ---------------------------------------------------------------------

  /** Transfer type: bits 1..0 of bmAttributes (USB_ENDPOINT_TYPE_MASK). */
  function TransferType(ep: Endpoint): (t: nat)
    ensures t < 4
  {
    ep.bmAttributes % 4
  }

  /** Bit 7 of bEndpointAddress (USB_ENDPOINT_DIR_MASK): set for IN endpoints. */
  predicate IsInEndpoint(ep: Endpoint) {
    ep.bEndpointAddress >= 0x80
  }

  function PipeOf(abi: Abi, ep: Endpoint): PipeInfo {
    var t := TransferType(ep);
    PipeInfo(
      ep.bEndpointAddress,
      abi.maxPacketSize(ep.wMaxPacketSize),
      t,
      if t == abi.pipeTypeControl then abi.dirInOut
      else if IsInEndpoint(ep) then abi.dirIn else abi.dirOut,
      ep.bInterval)
  }

  /** The per-endpoint pipe record: number, type and interval come from the
      endpoint; the direction is IN_OUT exactly for control pipes, and
      otherwise IN exactly when bit 7 of the address is set. */
  lemma {:induction false} PipeOfSpec(abi: Abi, ep: Endpoint)
    requires abi.Wf()
    ensures PipeOf(abi, ep).number == ep.bEndpointAddress as nat
    ensures PipeOf(abi, ep).pipeType == TransferType(ep)
    ensures PipeOf(abi, ep).interval == ep.bInterval as nat
    ensures PipeOf(abi, ep).maxPacketSize == abi.maxPacketSize(ep.wMaxPacketSize)
    ensures PipeOf(abi, ep).direction == abi.dirInOut <==> TransferType(ep) == abi.pipeTypeControl
    ensures PipeOf(abi, ep).direction == abi.dirIn
        <==> TransferType(ep) != abi.pipeTypeControl && ep.bEndpointAddress / 0x80 == 1
    ensures PipeOf(abi, ep).direction == abi.dirOut
        <==> TransferType(ep) != abi.pipeTypeControl && ep.bEndpointAddress / 0x80 == 0
  {
  }

  /** Pipe 0, the default control pipe, as the device-info record carries it. */
  function Pipe0(abi: Abi, desc: DeviceDescriptor): (p: PipeInfo)
    ensures p.number == 0 && p.pipeType == 0 && p.interval == 0
    ensures p.maxPacketSize == desc.bMaxPacketSize0 as nat && p.direction == abi.dirInOut
  {
    PipeInfo(0, desc.bMaxPacketSize0, 0, abi.dirInOut, 0)
  }

  // ---------------------------------------------------------------------
  // The size formula (the size pass's specification)
  // ---------------------------------------------------------------------

  /** n records of k bytes each. Sizes are added up record by record, so
      that offsets stay linear in the record counts. */
  function Times(k: nat, n: nat): nat {
    if n == 0 then 0 else Times(k, n - 1) + k
  }

  lemma {:induction false} TimesIsProduct(k: nat, n: nat)
    ensures Times(k, n) == k * n
  {
    if n > 0 {
      TimesIsProduct(k, n - 1);
    }
  }

  function AltSize(abi: Abi, a: AltSetting): nat {
    abi.altSettingSize + Times(abi.endpointSize, |a.endpoints|) + Times(abi.pipeInfoSize, |a.endpoints|)
  }

  function AltsSize(abi: Abi, alts: seq<AltSetting>): nat {
    if alts == [] then 0
    else AltsSize(abi, alts[..|alts| - 1]) + AltSize(abi, alts[|alts| - 1])
  }

  /** The bytes of the alternate settings of a sequence of interfaces. */
  function IfacesSize(abi: Abi, ifaces: seq<Interface>): nat {
    if ifaces == [] then 0
    else IfacesSize(abi, ifaces[..|ifaces| - 1]) + AltsSize(abi, ifaces[|ifaces| - 1].altsettings)
  }

  function ConfigSize(abi: Abi, c: Config): nat {
    abi.configSize + Times(abi.interfaceSize, |c.interfaces|) + IfacesSize(abi, c.interfaces)
  }

  function ConfigsSize(abi: Abi, cs: seq<Config>): nat {
    if cs == [] then 0 else ConfigsSize(abi, cs[..|cs| - 1]) + ConfigSize(abi, cs[|cs| - 1])
  }

  /** sizeof(device_info), plus for each configuration sizeof(CONFIGURATION)
      and one INTERFACE record per interface, plus for each alternate setting
      sizeof(ALTERNATE_SETTING) and one endpoint descriptor and one pipe
      record per endpoint. */
  function DeviceSize(abi: Abi, d: Device): nat {
    abi.deviceInfoSize + ConfigsSize(abi, d.configs)
  }

  // ---------------------------------------------------------------------
  // Pass one: usb_deviceinfo(NULL)
  // ---------------------------------------------------------------------

  lemma {:induction false} EndpointsSize(abi: Abi, n: nat)
    ensures (abi.endpointSize + abi.pipeInfoSize) * n
         == Times(abi.endpointSize, n) + Times(abi.pipeInfoSize, n)
  {
    TimesIsProduct(abi.endpointSize, n);
    TimesIsProduct(abi.pipeInfoSize, n);
    TimesIsProduct(abi.endpointSize + abi.pipeInfoSize, n);
  }

  method SizePass(abi: Abi, d: Device) returns (len: nat)
    ensures len == DeviceSize(abi, d)
  {
    len := abi.deviceInfoSize;
    var i := 0;
    while i < |d.configs|
      invariant 0 <= i <= |d.configs|
      invariant len == abi.deviceInfoSize + ConfigsSize(abi, d.configs[..i])
    {
      var c := d.configs[i];
      ghost var start := len;
      len := len + abi.configSize;
      TimesIsProduct(abi.interfaceSize, |c.interfaces|);
      len := len + abi.interfaceSize * |c.interfaces|;
      var j := 0;
      while j < |c.interfaces|
        invariant 0 <= j <= |c.interfaces|
        invariant len == start + abi.configSize + Times(abi.interfaceSize, |c.interfaces|)
                         + IfacesSize(abi, c.interfaces[..j])
      {
        var alts := c.interfaces[j].altsettings;
        ghost var ifStart := len;
        var k := 0;
        while k < |alts|
          invariant 0 <= k <= |alts|
          invariant len == ifStart + AltsSize(abi, alts[..k])
        {
          len := len + abi.altSettingSize;
          EndpointsSize(abi, |alts[k].endpoints|);
          len := len + (abi.endpointSize + abi.pipeInfoSize) * |alts[k].endpoints|;
          assert alts[..k + 1][..k] == alts[..k];
          k := k + 1;
        }
        assert alts[..k] == alts;
        assert c.interfaces[..j + 1][..j] == c.interfaces[..j];
        j := j + 1;
      }
      assert c.interfaces[..j] == c.interfaces;
      assert d.configs[..i + 1][..i] == d.configs[..i];
      i := i + 1;
    }
    assert d.configs[..i] == d.configs;
  }

  // ---------------------------------------------------------------------
  // The records the fill pass writes (its specification)
  // ---------------------------------------------------------------------

  function ConfigDescriptorOf(c: Config): ConfigDescriptor {
    ConfigDescriptor(c.bLength, c.bDescriptorType, c.wTotalLength, |c.interfaces|,
                     c.bConfigurationValue, c.iConfiguration, c.bmAttributes, c.MaxPower)
  }

  function InterfaceDescriptorOf(a: AltSetting): InterfaceDescriptor {
    InterfaceDescriptor(a.bLength, a.bDescriptorType, a.bInterfaceNumber,
                        a.bAlternateSetting, |a.endpoints|, a.bInterfaceClass,
                        a.bInterfaceSubClass, a.bInterfaceProtocol, a.iInterface)
  }

  function EndpointRecs(eps: seq<Endpoint>): (r: seq<Record>)
    ensures |r| == |eps|
  {
    seq(|eps|, l requires 0 <= l < |eps| => EndpointRec(eps[l]))
  }

  function PipeRecs(abi: Abi, eps: seq<Endpoint>): (r: seq<Record>)
    ensures |r| == |eps|
  {
    seq(|eps|, l requires 0 <= l < |eps| => PipeRec(PipeOf(abi, eps[l])))
  }

  /** An alternate setting laid out at offset base: its record, then its
      endpoint descriptors, then its pipes. */
  function AltRecords(abi: Abi, a: AltSetting, base: nat): seq<Record> {
    var eds := base + abi.altSettingSize;
    [AltSettingRec(InterfaceDescriptorOf(a), Some(eds), Some(eds + Times(abi.endpointSize, |a.endpoints|)))]
      + EndpointRecs(a.endpoints) + PipeRecs(abi, a.endpoints)
  }

  function AltsRecords(abi: Abi, alts: seq<AltSetting>, base: nat): seq<Record> {
    if alts == [] then []
    else
      var init := alts[..|alts| - 1];
      AltsRecords(abi, init, base) + AltRecords(abi, alts[|alts| - 1], base + AltsSize(abi, init))
  }

  /** The alternate settings of a sequence of interfaces, interface after
      interface. */
  function IfacesRecords(abi: Abi, ifaces: seq<Interface>, base: nat): seq<Record> {
    if ifaces == [] then []
    else
      var init := ifaces[..|ifaces| - 1];
      IfacesRecords(abi, init, base)
        + AltsRecords(abi, ifaces[|ifaces| - 1].altsettings, base + IfacesSize(abi, init))
  }

  /** Offset of the first alternate setting of interface q of a configuration
      laid out at offset base. */
  function AltsStart(abi: Abi, c: Config, base: nat, q: nat): nat
    requires q <= |c.interfaces|
  {
    base + abi.configSize + Times(abi.interfaceSize, |c.interfaces|) + IfacesSize(abi, c.interfaces[..q])
  }

  /** The interface records of a configuration, of which the first `patched`
      already refer to their alternate settings. */
  function InterfaceRecs(abi: Abi, c: Config, base: nat, patched: nat): (r: seq<Record>)
    ensures |r| == |c.interfaces|
  {
    seq(|c.interfaces|, q requires 0 <= q < |c.interfaces| =>
      InterfaceRec(|c.interfaces[q].altsettings|,
                   if q < patched then Some(AltsStart(abi, c, base, q)) else None,
                   if q < patched then Some(AltsStart(abi, c, base, q)) else None))
  }

  /** A configuration laid out at offset base: its record, its interface
      records, then the alternate settings of each interface. */
  function ConfigRecords(abi: Abi, c: Config, base: nat): seq<Record> {
    [ConfigRec(ConfigDescriptorOf(c), |c.interfaces|, Some(base + abi.configSize))]
      + InterfaceRecs(abi, c, base, |c.interfaces|)
      + IfacesRecords(abi, c.interfaces, base + abi.configSize + Times(abi.interfaceSize, |c.interfaces|))
  }

  function ConfigsRecords(abi: Abi, cs: seq<Config>, base: nat): seq<Record> {
    if cs == [] then []
    else
      var init := cs[..|cs| - 1];
      ConfigsRecords(abi, init, base) + ConfigRecords(abi, cs[|cs| - 1], base + ConfigsSize(abi, init))
  }

  /** Offsets of the first `upto` interface records of a configuration whose
      first interface record is at offset `first`, by interface index. */
  function InterfaceOffsets(abi: Abi, first: nat, upto: nat): map<nat, nat> {
    if upto == 0 then map[]
    else InterfaceOffsets(abi, first, upto - 1)[upto - 1 := first + Times(abi.interfaceSize, (upto - 1))]
  }

  /** Interface q of the first `upto` has an entry, at its record's offset. */
  lemma {:induction false} InterfaceOffsetsAt(abi: Abi, first: nat, upto: nat, q: nat)
    ensures q in InterfaceOffsets(abi, first, upto) <==> q < upto
    ensures q < upto ==> InterfaceOffsets(abi, first, upto)[q] == first + Times(abi.interfaceSize, q)
  {
    if upto > 0 {
      InterfaceOffsetsAt(abi, first, upto - 1, q);
    }
  }

  /** pActiveInterface[] after the given configurations: each configuration
      overwrites the entries of its own interfaces. */
  function ActiveInterfaces(abi: Abi, cs: seq<Config>, base: nat): map<nat, nat> {
    if cs == [] then map[]
    else
      var init := cs[..|cs| - 1];
      var last := cs[|cs| - 1];
      ActiveInterfaces(abi, init, base)
        + InterfaceOffsets(abi, base + ConfigsSize(abi, init) + abi.configSize, |last.interfaces|)
  }

  /** pConfigs and pActiveConfig: the offset of the last configuration written. */
  function LastConfig(abi: Abi, cs: seq<Config>, base: nat): Option<nat> {
    if cs == [] then None else Some(base + ConfigsSize(abi, cs[..|cs| - 1]))
  }

  /** The device-info record once the given configurations have been written. */
  function DeviceHead(abi: Abi, d: Device, cs: seq<Config>): (r: Record)
    ensures r.DeviceInfoRec?
  {
    DeviceInfoRec(abi.deviceDescriptorSize, d.descriptor, |d.configs|,
                  Pipe0(abi, d.descriptor),
                  LastConfig(abi, cs, abi.deviceInfoSize), LastConfig(abi, cs, abi.deviceInfoSize),
                  ActiveInterfaces(abi, cs, abi.deviceInfoSize))
  }

  /** The whole flat buffer for a device. */
  function DeviceRecords(abi: Abi, d: Device): seq<Record> {
    [DeviceHead(abi, d, d.configs)] + ConfigsRecords(abi, d.configs, abi.deviceInfoSize)
  }

  // ---------------------------------------------------------------------
  // Pass two: usb_deviceinfo(buf)
  // ---------------------------------------------------------------------

  /** One alternate setting (usb-driver.c, the body of the `k` loop). */
  method FillAltSetting(abi: Abi, a: AltSetting, buf: seq<Record>, len: nat)
    returns (buf': seq<Record>, len': nat)
    ensures buf' == buf + AltRecords(abi, a, len)
    ensures len' == len + AltSize(abi, a)
  {
    var at := |buf|;
    var desc := InterfaceDescriptorOf(a);
    buf' := buf + [AltSettingRec(desc, None, None)];
    len' := len + abi.altSettingSize;
    ghost var eds := len';
    buf' := buf'[at := buf'[at].(pEndpointDescriptors := Some(len'))];
    buf', len' := FillEndpoints(a.endpoints, buf', len', abi.endpointSize);
    ghost var pipes := len';
    assert buf'[at := buf'[at].(pPipes := Some(len'))]
        == buf + [AltSettingRec(desc, Some(eds), Some(pipes))] + EndpointRecs(a.endpoints) by {
      UpdateMiddle(buf, [AltSettingRec(desc, Some(eds), None)], EndpointRecs(a.endpoints), 0,
                   AltSettingRec(desc, Some(eds), Some(pipes)));
    }
    buf' := buf'[at := buf'[at].(pPipes := Some(len'))];
    buf', len' := FillPipes(abi, a.endpoints, buf', len');
  }

  /** The endpoint descriptors of an alternate setting (the first `l` loop),
      each `size` bytes long. */
  method FillEndpoints(eps: seq<Endpoint>, buf: seq<Record>, len: nat, size: nat)
    returns (buf': seq<Record>, len': nat)
    ensures buf' == buf + EndpointRecs(eps)
    ensures len' == len + Times(size, |eps|)
  {
    buf', len' := buf, len;
    var l := 0;
    while l < |eps|
      invariant 0 <= l <= |eps|
      invariant len' == len + Times(size, l)
      invariant buf' == buf + EndpointRecs(eps[..l])
    {
      assert EndpointRecs(eps[..l + 1]) == EndpointRecs(eps[..l]) + [EndpointRec(eps[l])];
      buf' := buf' + [EndpointRec(eps[l])];
      len' := len' + size;
      l := l + 1;
    }
    assert eps[..l] == eps;
  }

  /** The pipes of an alternate setting (the second `l` loop). */
  method FillPipes(abi: Abi, eps: seq<Endpoint>, buf: seq<Record>, len: nat)
    returns (buf': seq<Record>, len': nat)
    ensures buf' == buf + PipeRecs(abi, eps)
    ensures len' == len + Times(abi.pipeInfoSize, |eps|)
  {
    buf', len' := buf, len;
    var l := 0;
    while l < |eps|
      invariant 0 <= l <= |eps|
      invariant len' == len + Times(abi.pipeInfoSize, l)
      invariant buf' == buf + PipeRecs(abi, eps[..l])
    {
      assert PipeRecs(abi, eps[..l + 1]) == PipeRecs(abi, eps[..l]) + [PipeRec(PipeOf(abi, eps[l]))];
      buf' := buf' + [PipeRec(PipeOf(abi, eps[l]))];
      len' := len' + abi.pipeInfoSize;
      l := l + 1;
    }
    assert eps[..l] == eps;
  }

  /** The alternate settings of one interface (usb-driver.c, the `k` loop). */
  method FillAltSettings(abi: Abi, alts: seq<AltSetting>, buf: seq<Record>, len: nat)
    returns (buf': seq<Record>, len': nat)
    ensures buf' == buf + AltsRecords(abi, alts, len)
    ensures len' == len + AltsSize(abi, alts)
  {
    buf', len' := buf, len;
    var k := 0;
    while k < |alts|
      invariant 0 <= k <= |alts|
      invariant buf' == buf + AltsRecords(abi, alts[..k], len)
      invariant len' == len + AltsSize(abi, alts[..k])
    {
      assert alts[..k + 1][..k] == alts[..k];
      buf', len' := FillAltSetting(abi, alts[k], buf', len');
      k := k + 1;
    }
    assert alts[..k] == alts;
  }

  /** (P + X + R)[|P| + j := v] == P + X[j := v] + R */
  lemma {:induction false} UpdateMiddle<T>(p: seq<T>, x: seq<T>, r: seq<T>, j: nat, v: T)
    requires j < |x|
    ensures (p + x + r)[|p| + j := v] == p + x[j := v] + r
  {
  }

  /** The interface records of one configuration (usb-driver.c, the first
      `j` loop): each entry of pActiveInterface[] in the device-info record
      is pointed at the interface record of the same index. */
  method FillInterfaceRecords(abi: Abi, c: Config, base: nat, buf: seq<Record>, len: nat)
    returns (buf': seq<Record>, len': nat)
    requires |buf| > 0 && buf[0].DeviceInfoRec?
    ensures buf' == [buf[0].(pActiveInterface := buf[0].pActiveInterface
                               + InterfaceOffsets(abi, len, |c.interfaces|))]
                    + buf[1..] + InterfaceRecs(abi, c, base, 0)
    ensures len' == len + Times(abi.interfaceSize, |c.interfaces|)
  {
    var n := |c.interfaces|;
    var head := buf[0];
    buf', len' := buf, len;
    assert InterfaceOffsets(abi, len, 0) == map[];
    assert head.pActiveInterface + map[] == head.pActiveInterface;
    var j := 0;
    while j < n
      invariant 0 <= j <= n
      invariant len' == len + Times(abi.interfaceSize, j)
      invariant |buf'| > 0 && buf'[0] == head.(pActiveInterface := head.pActiveInterface + InterfaceOffsets(abi, len, j))
      invariant buf'[1..] == buf[1..] + InterfaceRecs(abi, c, base, 0)[..j]
    {
      var rec := InterfaceRec(|c.interfaces[j].altsettings|, None, None);
      ghost var tail := buf'[1..];
      ghost var h := buf'[0];
      buf' := buf' + [rec];
      buf' := buf'[0 := buf'[0].(pActiveInterface := buf'[0].pActiveInterface[j := len'])];
      assert buf'[1..] == tail + [rec];
      assert buf'[1..] == buf[1..] + InterfaceRecs(abi, c, base, 0)[..j + 1] by {
        assert InterfaceRecs(abi, c, base, 0)[..j + 1] == InterfaceRecs(abi, c, base, 0)[..j] + [rec];
      }
      assert buf'[0] == head.(pActiveInterface := head.pActiveInterface + InterfaceOffsets(abi, len, j + 1)) by {
        OffsetsStep(abi, head.pActiveInterface, len, j);
      }
      len' := len' + abi.interfaceSize;
      j := j + 1;
    }
    assert InterfaceRecs(abi, c, base, 0)[..j] == InterfaceRecs(abi, c, base, 0);
    assert buf' == [buf'[0]] + buf'[1..];
  }

  lemma {:induction false} OffsetsStep(abi: Abi, m: map<nat, nat>, first: nat, j: nat)
    ensures m + InterfaceOffsets(abi, first, j + 1)
         == (m + InterfaceOffsets(abi, first, j))[j := first + Times(abi.interfaceSize, j)]
  {
    var lhs := m + InterfaceOffsets(abi, first, j + 1);
    var rhs := (m + InterfaceOffsets(abi, first, j))[j := first + Times(abi.interfaceSize, j)];
    assert lhs.Keys == rhs.Keys;
    forall k | k in lhs.Keys ensures lhs[k] == rhs[k] {
    }
  }

  /** The buffer once the alternate settings of the first j interfaces of
      a configuration at `base` have been written, each of those interfaces'
      records pointing at its first one. */
  ghost predicate InterfacesUpTo(abi: Abi, c: Config, base: nat, prefix: seq<Record>, j: nat,
                                 buf: seq<Record>, len: nat)
    requires j <= |c.interfaces|
  {
    var start := AltsStart(abi, c, base, 0);
    && len == start + IfacesSize(abi, c.interfaces[..j])
    && buf == prefix + InterfaceRecs(abi, c, base, j) + IfacesRecords(abi, c.interfaces[..j], start)
  }

  lemma {:induction false} IfacesStep(abi: Abi, ifaces: seq<Interface>, j: nat, start: nat)
    requires j < |ifaces|
    ensures IfacesRecords(abi, ifaces[..j + 1], start)
         == IfacesRecords(abi, ifaces[..j], start)
            + AltsRecords(abi, ifaces[j].altsettings, start + IfacesSize(abi, ifaces[..j]))
    ensures IfacesSize(abi, ifaces[..j + 1])
         == IfacesSize(abi, ifaces[..j]) + AltsSize(abi, ifaces[j].altsettings)
  {
    assert ifaces[..j + 1][..j] == ifaces[..j];
  }

  /** Pointing interface record j at its alternate settings. */
  lemma {:induction false} PatchInterface(abi: Abi, c: Config, base: nat, prefix: seq<Record>, j: nat,
                       rest: seq<Record>)
    requires j < |c.interfaces|
    ensures var buf := prefix + InterfaceRecs(abi, c, base, j) + rest;
            var at := AltsStart(abi, c, base, j);
            buf[|prefix| + j := buf[|prefix| + j].(pAlternateSettings := Some(at),
                                                  pActiveAltSetting := Some(at))]
              == prefix + InterfaceRecs(abi, c, base, j + 1) + rest
  {
    var at := AltsStart(abi, c, base, j);
    var recs := InterfaceRecs(abi, c, base, j);
    assert recs[j].(pAlternateSettings := Some(at), pActiveAltSetting := Some(at))
        == InterfaceRecs(abi, c, base, j + 1)[j];
    assert recs[j := recs[j].(pAlternateSettings := Some(at), pActiveAltSetting := Some(at))]
        == InterfaceRecs(abi, c, base, j + 1);
    UpdateMiddle(prefix, recs, rest, j,
                 recs[j].(pAlternateSettings := Some(at), pActiveAltSetting := Some(at)));
  }

  /** Before interface j is written, `len` is where its alternate settings
      start, and patching its record gives the buffer with j + 1 patched. */
  lemma {:induction false} BeforeInterface(abi: Abi, c: Config, base: nat, prefix: seq<Record>, j: nat,
                        buf: seq<Record>, len: nat)
    requires j < |c.interfaces|
    requires InterfacesUpTo(abi, c, base, prefix, j, buf, len)
    ensures len == AltsStart(abi, c, base, j) && |prefix| + j < |buf|
    ensures buf[|prefix| + j := buf[|prefix| + j].(pAlternateSettings := Some(len),
                                                  pActiveAltSetting := Some(len))]
         == prefix + InterfaceRecs(abi, c, base, j + 1)
            + IfacesRecords(abi, c.interfaces[..j], AltsStart(abi, c, base, 0))
  {
    assert c.interfaces[..0] == [];
    PatchInterface(abi, c, base, prefix, j,
                   IfacesRecords(abi, c.interfaces[..j], AltsStart(abi, c, base, 0)));
  }

  /** Writing interface j's alternate settings after the patched buffer
      completes step j + 1. */
  lemma {:induction false} AfterInterface(abi: Abi, c: Config, base: nat, prefix: seq<Record>, j: nat,
                       mid: seq<Record>, len: nat)
    requires j < |c.interfaces| && len == AltsStart(abi, c, base, j)
    requires mid == prefix + InterfaceRecs(abi, c, base, j + 1)
                    + IfacesRecords(abi, c.interfaces[..j], AltsStart(abi, c, base, 0))
    ensures InterfacesUpTo(abi, c, base, prefix, j + 1,
                           mid + AltsRecords(abi, c.interfaces[j].altsettings, len),
                           len + AltsSize(abi, c.interfaces[j].altsettings))
  {
    var start := AltsStart(abi, c, base, 0);
    var alts := c.interfaces[j].altsettings;
    var done := IfacesRecords(abi, c.interfaces[..j], start);
    assert len == start + IfacesSize(abi, c.interfaces[..j]) by {
      assert c.interfaces[..0] == [];
    }
    IfacesStep(abi, c.interfaces, j, start);
    AppendAssoc(prefix + InterfaceRecs(abi, c, base, j + 1), done, AltsRecords(abi, alts, len));
  }

  lemma {:induction false} AppendAssoc<T>(x: seq<T>, y: seq<T>, z: seq<T>)
    ensures (x + y) + z == x + (y + z)
  {
  }

  /** One iteration of the second `j` loop: interface record j is pointed at
      the offset where its alternate settings start, then they are written. */
  method FillInterface(abi: Abi, c: Config, base: nat, ghost prefix: seq<Record>, j: nat,
                       idx: nat, buf: seq<Record>, len: nat)
    returns (buf': seq<Record>, len': nat)
    requires j < |c.interfaces| && idx == |prefix| + j
    requires InterfacesUpTo(abi, c, base, prefix, j, buf, len)
    ensures InterfacesUpTo(abi, c, base, prefix, j + 1, buf', len')
  {
    BeforeInterface(abi, c, base, prefix, j, buf, len);
    buf' := buf[idx := buf[idx].(pAlternateSettings := Some(len), pActiveAltSetting := Some(len))];
    ghost var mid := buf';
    buf', len' := FillAltSettings(abi, c.interfaces[j].altsettings, buf', len);
    AfterInterface(abi, c, base, prefix, j, mid, len);
  }

  /** The alternate settings of every interface of one configuration
      (usb-driver.c, the second `j` loop): each interface record is pointed
      at its first alternate setting before those are written. */
  method FillInterfaces(abi: Abi, c: Config, base: nat, ghost prefix: seq<Record>,
                        buf: seq<Record>, len: nat)
    returns (buf': seq<Record>, len': nat)
    requires buf == prefix + InterfaceRecs(abi, c, base, 0)
    requires len == base + abi.configSize + Times(abi.interfaceSize, |c.interfaces|)
    ensures buf' == prefix + InterfaceRecs(abi, c, base, |c.interfaces|)
                    + IfacesRecords(abi, c.interfaces, len)
    ensures len' == len + IfacesSize(abi, c.interfaces)
  {
    var n := |c.interfaces|;
    var first := |buf| - n;
    buf', len' := buf, len;
    assert c.interfaces[..0] == [];
    assert buf' == prefix + InterfaceRecs(abi, c, base, 0) + [];
    var j := 0;
    while j < n
      invariant 0 <= j <= n
      invariant InterfacesUpTo(abi, c, base, prefix, j, buf', len')
    {
      buf', len' := FillInterface(abi, c, base, prefix, j, first + j, buf', len');
      j := j + 1;
    }
    assert c.interfaces[..j] == c.interfaces;
  }

  /** The device-info record once configuration c has been written at
      offset `at`: pConfigs and pActiveConfig point at it, and the entries
      of pActiveInterface[] for its interfaces at its interface records. */
  function ConfigHead(abi: Abi, r: Record, c: Config, at: nat): Record
    requires r.DeviceInfoRec?
  {
    r.(pConfigs := Some(at), pActiveConfig := Some(at),
       pActiveInterface := r.pActiveInterface
         + InterfaceOffsets(abi, at + abi.configSize, |c.interfaces|))
  }

  /** One configuration (usb-driver.c, the body of the `i` loop): it points
      pConfigs and pActiveConfig of the device-info record at itself and the
      entries of pActiveInterface[] at its interface records. */
  method FillConfig(abi: Abi, c: Config, buf: seq<Record>, len: nat)
    returns (buf': seq<Record>, len': nat)
    requires |buf| > 0 && buf[0].DeviceInfoRec?
    ensures |buf'| > 0
    ensures buf'[0] == ConfigHead(abi, buf[0], c, len)
    ensures buf'[1..] == buf[1..] + ConfigRecords(abi, c, len)
    ensures len' == len + ConfigSize(abi, c)
  {
    var n := |c.interfaces|;
    var head := buf[0].(pConfigs := Some(len), pActiveConfig := Some(len));
    buf' := buf[0 := head];
    var at := |buf'|;
    var cfg := ConfigRec(ConfigDescriptorOf(c), n, None);
    buf' := buf' + [cfg];
    len' := len + abi.configSize;
    buf' := buf'[at := buf'[at].(pInterfaces := Some(len'))];
    ghost var cfg' := cfg.(pInterfaces := Some(len'));
    ghost var rest := buf[1..];
    assert buf' == [head] + (rest + [cfg']);
    ghost var before := buf';
    buf', len' := FillInterfaceRecords(abi, c, len, buf', len');
    ghost var head' := head.(pActiveInterface := head.pActiveInterface
                               + InterfaceOffsets(abi, len + abi.configSize, n));
    assert buf' == [head'] + rest + [cfg'] + InterfaceRecs(abi, c, len, 0) by {
      assert before[0] == head && before[1..] == rest + [cfg'];
      AppendAssoc([head'], rest, [cfg']);
    }
    buf', len' := FillInterfaces(abi, c, len, [head'] + rest + [cfg'], buf', len');
    ghost var ifs := InterfaceRecs(abi, c, len, n);
    ghost var alts := IfacesRecords(abi, c.interfaces, len + abi.configSize + Times(abi.interfaceSize, n));
    assert buf'[1..] == rest + ConfigRecords(abi, c, len) by {
      assert ConfigRecords(abi, c, len) == [cfg'] + ifs + alts;
      AppendAssoc([head'] + rest + [cfg'], ifs, alts);
      AppendAssoc([head'] + rest, [cfg'], ifs + alts);
      AppendAssoc([head'], rest, [cfg'] + (ifs + alts));
      AppendAssoc([cfg'], ifs, alts);
      DropFirst(head', rest + ([cfg'] + ifs + alts));
    }
    assert buf'[0] == head';
  }

  lemma {:induction false} DropFirst<T>(x: T, y: seq<T>)
    ensures ([x] + y)[0] == x && ([x] + y)[1..] == y
  {
  }

  /** The device record and the buffer after the configurations `cs`. */
  ghost predicate FilledUpTo(abi: Abi, d: Device, cs: seq<Config>, buf: seq<Record>, len: nat) {
    && |buf| > 0 && buf[0] == DeviceHead(abi, d, cs)
    && buf[1..] == ConfigsRecords(abi, cs, abi.deviceInfoSize)
    && len == abi.deviceInfoSize + ConfigsSize(abi, cs)
  }

  /** One iteration of the `i` loop of usb_deviceinfo: configuration c, the
      last of cs, is written after the ones before it. */
  method FillNextConfig(abi: Abi, d: Device, ghost cs: seq<Config>, c: Config,
                        buf: seq<Record>, len: nat)
    returns (buf': seq<Record>, len': nat)
    requires cs != [] && c == cs[|cs| - 1]
    requires FilledUpTo(abi, d, cs[..|cs| - 1], buf, len)
    ensures FilledUpTo(abi, d, cs, buf', len')
  {
    buf', len' := FillConfig(abi, c, buf, len);
    HeadStep(abi, d, cs, buf[0]);
  }

  /** usb_deviceinfo(buf): the device-info record, then every configuration. */
  method FillPass(abi: Abi, d: Device) returns (buf: seq<Record>, len: nat)
    ensures buf == DeviceRecords(abi, d)
    ensures len == DeviceSize(abi, d)
  {
    buf := [DeviceInfoRec(abi.deviceDescriptorSize, d.descriptor, |d.configs|,
                          Pipe0(abi, d.descriptor), None, None, map[])];
    len := abi.deviceInfoSize;
    var i := 0;
    assert d.configs[..0] == [];
    while i < |d.configs|
      invariant 0 <= i <= |d.configs|
      invariant FilledUpTo(abi, d, d.configs[..i], buf, len)
    {
      assert d.configs[..i + 1][..i] == d.configs[..i];
      buf, len := FillNextConfig(abi, d, d.configs[..i + 1], d.configs[i], buf, len);
      i := i + 1;
    }
    assert d.configs[..i] == d.configs;
    assert buf == [buf[0]] + buf[1..];
  }

  /** Writing one more configuration moves the device record's pointers to
      it and overwrites the pActiveInterface[] entries of its interfaces. */
  lemma {:induction false} HeadStep(abi: Abi, d: Device, cs: seq<Config>, r: Record)
    requires cs != [] && r == DeviceHead(abi, d, cs[..|cs| - 1])
    ensures ConfigHead(abi, r, cs[|cs| - 1], abi.deviceInfoSize + ConfigsSize(abi, cs[..|cs| - 1]))
         == DeviceHead(abi, d, cs)
  {
  }
}
