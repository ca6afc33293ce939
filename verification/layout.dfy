/**
 * What the two passes of the serializer have in common: the number of bytes
 * the fill pass writes is the number the size pass announced, and every
 * offset the fill pass stores in a configuration or an alternate setting is
 * the byte offset, relative to where that structure is laid out, of a record
 * of the kind the slot refers to. Module Placement shows that each structure
 * is laid out where these lemmas assume, so that the same offsets are byte
 * offsets in the device's whole buffer.
 */
module Layout {

  import opened Usb
  import opened Abi
  import opened Serializer

  /** Byte count is additive over concatenation. */
  lemma {:induction false} RecordsSizeAppend(abi: Abi, a: seq<Record>, b: seq<Record>)
    ensures RecordsSize(abi, a + b) == RecordsSize(abi, a) + RecordsSize(abi, b)
  {
    if a != [] {
      assert (a + b)[0] == a[0];
      assert (a + b)[1..] == a[1..] + b;
      RecordsSizeAppend(abi, a[1..], b);
    } else {
      assert a + b == b;
    }
  }

  /** Records that all have the same size k occupy k bytes each. */
  lemma {:induction false} UniformSize(abi: Abi, recs: seq<Record>, k: nat)
    requires forall i :: 0 <= i < |recs| ==> RecordSize(abi, recs[i]) == k
    ensures RecordsSize(abi, recs) == Times(k, |recs|)
  {
    if recs != [] {
      UniformSize(abi, recs[1..], k);
    }
  }

  lemma {:induction false} AltRecordsSize(abi: Abi, a: AltSetting, base: nat)
    ensures RecordsSize(abi, AltRecords(abi, a, base)) == AltSize(abi, a)
  {
    var eds := base + abi.altSettingSize;
    var head := [AltSettingRec(InterfaceDescriptorOf(a), Some(eds),
                               Some(eds + Times(abi.endpointSize, |a.endpoints|)))];
    var e := EndpointRecs(a.endpoints);
    var p := PipeRecs(abi, a.endpoints);
    var n := |a.endpoints|;
    assert AltRecords(abi, a, base) == head + e + p;
    assert RecordsSize(abi, head + e + p)
        == RecordsSize(abi, head) + RecordsSize(abi, e) + RecordsSize(abi, p) by {
      RecordsSizeAppend(abi, head + e, p);
      RecordsSizeAppend(abi, head, e);
    }
    assert RecordsSize(abi, head) == abi.altSettingSize by {
      assert head[1..] == [];
    }
    assert RecordsSize(abi, e) == Times(abi.endpointSize, n) by {
      UniformSize(abi, e, abi.endpointSize);
    }
    assert RecordsSize(abi, p) == Times(abi.pipeInfoSize, n) by {
      UniformSize(abi, p, abi.pipeInfoSize);
    }
  }

  lemma {:induction false} AltsRecordsSize(abi: Abi, alts: seq<AltSetting>, base: nat)
    ensures RecordsSize(abi, AltsRecords(abi, alts, base)) == AltsSize(abi, alts)
  {
    if alts != [] {
      var init := alts[..|alts| - 1];
      var front := AltsRecords(abi, init, base);
      var last := AltRecords(abi, alts[|alts| - 1], base + AltsSize(abi, init));
      assert AltsRecords(abi, alts, base) == front + last;
      assert AltsSize(abi, alts) == AltsSize(abi, init) + AltSize(abi, alts[|alts| - 1]);
      AltsRecordsSize(abi, init, base);
      AltRecordsSize(abi, alts[|alts| - 1], base + AltsSize(abi, init));
      RecordsSizeAppend(abi, front, last);
    }
  }

  lemma {:induction false} IfacesRecordsSize(abi: Abi, ifaces: seq<Interface>, base: nat)
    ensures RecordsSize(abi, IfacesRecords(abi, ifaces, base)) == IfacesSize(abi, ifaces)
  {
    if ifaces != [] {
      var init := ifaces[..|ifaces| - 1];
      var alts := ifaces[|ifaces| - 1].altsettings;
      var front := IfacesRecords(abi, init, base);
      var last := AltsRecords(abi, alts, base + IfacesSize(abi, init));
      assert IfacesRecords(abi, ifaces, base) == front + last;
      assert IfacesSize(abi, ifaces) == IfacesSize(abi, init) + AltsSize(abi, alts);
      IfacesRecordsSize(abi, init, base);
      AltsRecordsSize(abi, alts, base + IfacesSize(abi, init));
      RecordsSizeAppend(abi, front, last);
    }
  }

  lemma {:induction false} ConfigRecordsSize(abi: Abi, c: Config, base: nat)
    ensures RecordsSize(abi, ConfigRecords(abi, c, base)) == ConfigSize(abi, c)
  {
    var n := |c.interfaces|;
    var head := [ConfigRec(ConfigDescriptorOf(c), n, Some(base + abi.configSize))];
    var ifs := InterfaceRecs(abi, c, base, n);
    var alts := IfacesRecords(abi, c.interfaces, base + abi.configSize + Times(abi.interfaceSize, n));
    assert ConfigRecords(abi, c, base) == head + ifs + alts;
    RecordsSizeAppend(abi, head + ifs, alts);
    RecordsSizeAppend(abi, head, ifs);
    assert RecordsSize(abi, head) == abi.configSize by {
      assert head[1..] == [];
    }
    UniformSize(abi, ifs, abi.interfaceSize);
    IfacesRecordsSize(abi, c.interfaces, base + abi.configSize + Times(abi.interfaceSize, n));
  }

  lemma {:induction false} ConfigsRecordsSize(abi: Abi, cs: seq<Config>, base: nat)
    ensures RecordsSize(abi, ConfigsRecords(abi, cs, base)) == ConfigsSize(abi, cs)
  {
    if cs != [] {
      var init := cs[..|cs| - 1];
      var front := ConfigsRecords(abi, init, base);
      var last := ConfigRecords(abi, cs[|cs| - 1], base + ConfigsSize(abi, init));
      assert ConfigsRecords(abi, cs, base) == front + last;
      assert ConfigsSize(abi, cs) == ConfigsSize(abi, init) + ConfigSize(abi, cs[|cs| - 1]);
      assert RecordsSize(abi, front) == ConfigsSize(abi, init) by {
        ConfigsRecordsSize(abi, init, base);
      }
      assert RecordsSize(abi, last) == ConfigSize(abi, cs[|cs| - 1]) by {
        ConfigRecordsSize(abi, cs[|cs| - 1], base + ConfigsSize(abi, init));
      }
      RecordsSizeAppend(abi, front, last);
    }
  }

  /** The two passes agree: the buffer the fill pass writes occupies exactly
      the number of bytes the size pass returns (and the fill pass itself
      returns). */
  lemma {:induction false} DeviceRecordsSize(abi: Abi, d: Device)
    ensures RecordsSize(abi, DeviceRecords(abi, d)) == DeviceSize(abi, d)
  {
    var head := [DeviceHead(abi, d, d.configs)];
    RecordsSizeAppend(abi, head, ConfigsRecords(abi, d.configs, abi.deviceInfoSize));
    assert RecordsSize(abi, head) == abi.deviceInfoSize by {
      assert head[1..] == [];
    }
    ConfigsRecordsSize(abi, d.configs, abi.deviceInfoSize);
  }

  // ---------------------------------------------------------------------
  // Every stored offset points at the record it names
  // ---------------------------------------------------------------------

  /** The byte offset of record k from the start of recs. */
  function Offset(abi: Abi, recs: seq<Record>, k: nat): nat
    requires k <= |recs|
  {
    RecordsSize(abi, recs[..k])
  }

  /** Inside an alternate setting laid out at base, pEndpointDescriptors[l]
      is the descriptor of endpoint l. */
  lemma {:induction false} AltEndpointReference(abi: Abi, a: AltSetting, base: nat, l: nat)
    requires l < |a.endpoints|
    ensures AltRecords(abi, a, base)[0].AltSettingRec?
    ensures AltRecords(abi, a, base)[0].iface == InterfaceDescriptorOf(a)
    ensures AltRecords(abi, a, base)[0].pEndpointDescriptors.Some?
    ensures AltRecords(abi, a, base)[1 + l] == EndpointRec(a.endpoints[l])
    ensures base + Offset(abi, AltRecords(abi, a, base), 1 + l)
         == AltRecords(abi, a, base)[0].pEndpointDescriptors.value + Times(abi.endpointSize, l)
  {
    var n := |a.endpoints|;
    var eds := base + abi.altSettingSize;
    var recs := AltRecords(abi, a, base);
    assert && recs[0] == AltSettingRec(InterfaceDescriptorOf(a), Some(eds), Some(eds + Times(abi.endpointSize, n)))
           && recs[1 + l] == EndpointRec(a.endpoints[l])
           && base + Offset(abi, recs, 1 + l) == eds + Times(abi.endpointSize, l) by {
      var head := [AltSettingRec(InterfaceDescriptorOf(a), Some(eds), Some(eds + Times(abi.endpointSize, n)))];
      var e := EndpointRecs(a.endpoints);
      assert recs == head + e + PipeRecs(abi, a.endpoints);
      assert RecordsSize(abi, head) == abi.altSettingSize by {
        assert head[1..] == [];
      }
      assert recs[..1 + l] == head + e[..l];
      RecordsSizeAppend(abi, head, e[..l]);
      UniformSize(abi, e[..l], abi.endpointSize);
    }
  }

  /** Inside an alternate setting laid out at base, pPipes[l] is the pipe of
      endpoint l. */
  lemma {:induction false} AltPipeReference(abi: Abi, a: AltSetting, base: nat, l: nat)
    requires l < |a.endpoints|
    ensures AltRecords(abi, a, base)[0].AltSettingRec?
    ensures AltRecords(abi, a, base)[0].pPipes.Some?
    ensures AltRecords(abi, a, base)[1 + |a.endpoints| + l] == PipeRec(PipeOf(abi, a.endpoints[l]))
    ensures base + Offset(abi, AltRecords(abi, a, base), 1 + |a.endpoints| + l)
         == AltRecords(abi, a, base)[0].pPipes.value + Times(abi.pipeInfoSize, l)
  {
    var n := |a.endpoints|;
    var eds := base + abi.altSettingSize;
    var pipes := eds + Times(abi.endpointSize, n);
    var recs := AltRecords(abi, a, base);
    assert && recs[0] == AltSettingRec(InterfaceDescriptorOf(a), Some(eds), Some(pipes))
           && recs[1 + n + l] == PipeRec(PipeOf(abi, a.endpoints[l]))
           && base + Offset(abi, recs, 1 + n + l) == pipes + Times(abi.pipeInfoSize, l) by {
      var head := [AltSettingRec(InterfaceDescriptorOf(a), Some(eds), Some(pipes))];
      var e := EndpointRecs(a.endpoints);
      var p := PipeRecs(abi, a.endpoints);
      assert recs == head + e + p;
      assert RecordsSize(abi, head) == abi.altSettingSize by {
        assert head[1..] == [];
      }
      assert recs[..1 + n + l] == head + e + p[..l];
      RecordsSizeAppend(abi, head + e, p[..l]);
      RecordsSizeAppend(abi, head, e);
      UniformSize(abi, e, abi.endpointSize);
      UniformSize(abi, p[..l], abi.pipeInfoSize);
    }
  }

  /** Inside a configuration laid out at base, pInterfaces[q] is the record of
      interface q, which counts its alternate settings and refers to the
      start of their records. */
  lemma {:induction false} ConfigInterfaceReferences(abi: Abi, c: Config, base: nat, q: nat)
    requires q < |c.interfaces|
    ensures ConfigRecords(abi, c, base)[0].ConfigRec?
    ensures ConfigRecords(abi, c, base)[0].config == ConfigDescriptorOf(c)
    ensures ConfigRecords(abi, c, base)[0].pInterfaces.Some?
    ensures ConfigRecords(abi, c, base)[1 + q].InterfaceRec?
    ensures ConfigRecords(abi, c, base)[1 + q].dwNumAltSettings == |c.interfaces[q].altsettings|
    ensures base + Offset(abi, ConfigRecords(abi, c, base), 1 + q)
         == ConfigRecords(abi, c, base)[0].pInterfaces.value + Times(abi.interfaceSize, q)
    ensures ConfigRecords(abi, c, base)[1 + q].pAlternateSettings == Some(AltsStart(abi, c, base, q))
    ensures ConfigRecords(abi, c, base)[1 + q].pActiveAltSetting == Some(AltsStart(abi, c, base, q))
  {
    var n := |c.interfaces|;
    var head := [ConfigRec(ConfigDescriptorOf(c), n, Some(base + abi.configSize))];
    var ifs := InterfaceRecs(abi, c, base, n);
    var recs := ConfigRecords(abi, c, base);
    assert recs == head + ifs
                   + IfacesRecords(abi, c.interfaces, base + abi.configSize + Times(abi.interfaceSize, n));
    assert RecordsSize(abi, head) == abi.configSize by {
      assert head[1..] == [];
    }
    assert recs[..1 + q] == head + ifs[..q];
    RecordsSizeAppend(abi, head, ifs[..q]);
    UniformSize(abi, ifs[..q], abi.interfaceSize);
  }

  lemma {:induction false} IfacesRecordsPrefix(abi: Abi, ifaces: seq<Interface>, base: nat, q: nat)
    requires q <= |ifaces|
    ensures IfacesRecords(abi, ifaces[..q], base) <= IfacesRecords(abi, ifaces, base)
  {
    if q < |ifaces| {
      var init := ifaces[..|ifaces| - 1];
      assert ifaces[..q] == init[..q];
      IfacesRecordsPrefix(abi, init, base, q);
    } else {
      assert ifaces[..q] == ifaces;
    }
  }

  /** The alternate settings of one interface begin with the record of
      alternate setting 0. */
  lemma {:induction false} AltsRecordsFirst(abi: Abi, alts: seq<AltSetting>, base: nat)
    requires |alts| > 0
    ensures |AltsRecords(abi, alts, base)| > 0
    ensures AltsRecords(abi, alts, base)[0]
         == AltSettingRec(InterfaceDescriptorOf(alts[0]), Some(base + abi.altSettingSize),
                          Some(base + abi.altSettingSize + Times(abi.endpointSize, |alts[0].endpoints|)))
  {
    var init := alts[..|alts| - 1];
    if init == [] {
      assert AltsRecords(abi, alts, base) == AltRecords(abi, alts[0], base);
    } else {
      AltsRecordsFirst(abi, init, base);
    }
  }

  /** The alternate settings of interface q start right after those of the
      interfaces before it, with the record of its alternate setting 0. */
  lemma {:induction false} IfaceFirstAlt(abi: Abi, ifaces: seq<Interface>, b: nat, q: nat)
    requires q < |ifaces| && |ifaces[q].altsettings| > 0
    ensures |IfacesRecords(abi, ifaces[..q], b)| < |IfacesRecords(abi, ifaces, b)|
    ensures IfacesRecords(abi, ifaces, b)[..|IfacesRecords(abi, ifaces[..q], b)|]
         == IfacesRecords(abi, ifaces[..q], b)
    ensures IfacesRecords(abi, ifaces, b)[|IfacesRecords(abi, ifaces[..q], b)|].AltSettingRec?
    ensures IfacesRecords(abi, ifaces, b)[|IfacesRecords(abi, ifaces[..q], b)|].iface
         == InterfaceDescriptorOf(ifaces[q].altsettings[0])
  {
    var P := IfacesRecords(abi, ifaces[..q], b);
    var alts := ifaces[q].altsettings;
    var A := AltsRecords(abi, alts, b + IfacesSize(abi, ifaces[..q]));
    assert IfacesRecords(abi, ifaces[..q + 1], b) == P + A by {
      assert ifaces[..q + 1][..q] == ifaces[..q];
    }
    IfacesRecordsPrefix(abi, ifaces, b, q + 1);
    AltsRecordsFirst(abi, alts, b + IfacesSize(abi, ifaces[..q]));
  }

  /** Record index of the first alternate setting of interface q in the
      records of a configuration: after the configuration record, the
      interface records and the alternate settings of interfaces 0..q-1. */
  function FirstAltIndex(abi: Abi, c: Config, base: nat, q: nat): nat
    requires q <= |c.interfaces|
  {
    1 + |c.interfaces|
      + |IfacesRecords(abi, c.interfaces[..q],
                       base + abi.configSize + Times(abi.interfaceSize, |c.interfaces|))|
  }

  /** That index holds the record of alternate setting 0 of interface q. */
  lemma {:induction false} ConfigAltSettingRecord(abi: Abi, c: Config, base: nat, q: nat)
    requires q < |c.interfaces| && |c.interfaces[q].altsettings| > 0
    ensures FirstAltIndex(abi, c, base, q) < |ConfigRecords(abi, c, base)|
    ensures ConfigRecords(abi, c, base)[FirstAltIndex(abi, c, base, q)].AltSettingRec?
    ensures ConfigRecords(abi, c, base)[FirstAltIndex(abi, c, base, q)].iface
         == InterfaceDescriptorOf(c.interfaces[q].altsettings[0])
  {
    var n := |c.interfaces|;
    var b2 := base + abi.configSize + Times(abi.interfaceSize, n);
    var recs := ConfigRecords(abi, c, base);
    var k := FirstAltIndex(abi, c, base, q);
    assert k < |recs| && recs[k].AltSettingRec?
           && recs[k].iface == InterfaceDescriptorOf(c.interfaces[q].altsettings[0]) by {
      var head := [ConfigRec(ConfigDescriptorOf(c), n, Some(base + abi.configSize))];
      var ifs := InterfaceRecs(abi, c, base, n);
      var all := IfacesRecords(abi, c.interfaces, b2);
      assert recs == head + ifs + all;
      IfaceFirstAlt(abi, c.interfaces, b2, q);
      assert recs[k] == all[|IfacesRecords(abi, c.interfaces[..q], b2)|];
    }
  }

  /** pAlternateSettings (and pActiveAltSetting) of interface q hold the
      offset of that record. */
  lemma {:induction false} ConfigAltSettingReference(abi: Abi, c: Config, base: nat, q: nat)
    requires q < |c.interfaces| && |c.interfaces[q].altsettings| > 0
    ensures FirstAltIndex(abi, c, base, q) < |ConfigRecords(abi, c, base)|
    ensures base + Offset(abi, ConfigRecords(abi, c, base), FirstAltIndex(abi, c, base, q))
         == AltsStart(abi, c, base, q)
  {
    var n := |c.interfaces|;
    var b2 := base + abi.configSize + Times(abi.interfaceSize, n);
    var recs := ConfigRecords(abi, c, base);
    var P := IfacesRecords(abi, c.interfaces[..q], b2);
    var k := FirstAltIndex(abi, c, base, q);
    assert k < |recs| && base + Offset(abi, recs, k) == AltsStart(abi, c, base, q) by {
      var head := [ConfigRec(ConfigDescriptorOf(c), n, Some(base + abi.configSize))];
      var ifs := InterfaceRecs(abi, c, base, n);
      var all := IfacesRecords(abi, c.interfaces, b2);
      assert recs == head + ifs + all;
      IfaceFirstAlt(abi, c.interfaces, b2, q);
      assert recs[..k] == head + ifs + P;
      SizeOfConfigPrefix(abi, head, ifs, P);
      IfacesRecordsSize(abi, c.interfaces[..q], b2);
    }
  }

  lemma {:induction false} SizeOfConfigPrefix(abi: Abi, head: seq<Record>, ifs: seq<Record>, P: seq<Record>)
    requires |head| == 1 && head[0].ConfigRec?
    requires forall i :: 0 <= i < |ifs| ==> ifs[i].InterfaceRec?
    ensures RecordsSize(abi, head + ifs + P)
         == abi.configSize + Times(abi.interfaceSize, |ifs|) + RecordsSize(abi, P)
  {
    RecordsSizeAppend(abi, head + ifs, P);
    RecordsSizeAppend(abi, head, ifs);
    assert RecordsSize(abi, head) == abi.configSize by {
      assert head[1..] == [];
    }
    UniformSize(abi, ifs, abi.interfaceSize);
  }

  /** Record index of the last configuration's record in the device's
      records. */
  function LastConfigIndex(abi: Abi, d: Device): nat
    requires |d.configs| > 0
  {
    1 + |ConfigsRecords(abi, d.configs[..|d.configs| - 1], abi.deviceInfoSize)|
  }

  /** That index holds the record of the last configuration. */
  lemma {:induction false} DeviceConfigRecord(abi: Abi, d: Device)
    requires |d.configs| > 0
    ensures LastConfigIndex(abi, d) < |DeviceRecords(abi, d)|
    ensures DeviceRecords(abi, d)[LastConfigIndex(abi, d)].ConfigRec?
    ensures DeviceRecords(abi, d)[LastConfigIndex(abi, d)].config
         == ConfigDescriptorOf(d.configs[|d.configs| - 1])
  {
    var recs := DeviceRecords(abi, d);
    var init := d.configs[..|d.configs| - 1];
    var front := ConfigsRecords(abi, init, abi.deviceInfoSize);
    var k := LastConfigIndex(abi, d);
    assert k < |recs| && recs[k].ConfigRec?
           && recs[k].config == ConfigDescriptorOf(d.configs[|d.configs| - 1]) by {
      var at := abi.deviceInfoSize + ConfigsSize(abi, init);
      var last := ConfigRecords(abi, d.configs[|d.configs| - 1], at);
      assert recs[1..] == front + last;
      assert recs[k] == last[0];
    }
  }

  /** pConfigs and pActiveConfig hold the offset of the last configuration's
      record; with no configuration they are not written. */
  lemma {:induction false} DeviceConfigReference(abi: Abi, d: Device)
    ensures DeviceRecords(abi, d)[0].DeviceInfoRec?
    ensures |d.configs| == 0 ==> DeviceRecords(abi, d)[0].pConfigs == None
    ensures |d.configs| == 0 ==> DeviceRecords(abi, d)[0].pActiveConfig == None
    ensures |d.configs| > 0 ==>
      && LastConfigIndex(abi, d) < |DeviceRecords(abi, d)|
      && DeviceRecords(abi, d)[0].pConfigs == Some(Offset(abi, DeviceRecords(abi, d), LastConfigIndex(abi, d)))
      && DeviceRecords(abi, d)[0].pActiveConfig == DeviceRecords(abi, d)[0].pConfigs
  {
    var recs := DeviceRecords(abi, d);
    assert recs[0] == DeviceHead(abi, d, d.configs);
    if |d.configs| > 0 {
      var init := d.configs[..|d.configs| - 1];
      var front := ConfigsRecords(abi, init, abi.deviceInfoSize);
      var k := LastConfigIndex(abi, d);
      var at := abi.deviceInfoSize + ConfigsSize(abi, init);
      assert recs[0].pConfigs == Some(at) && recs[0].pActiveConfig == Some(at);
      LastConfigOffset(abi, d);
    }
  }

  lemma {:induction false} LastConfigOffset(abi: Abi, d: Device)
    requires |d.configs| > 0
    ensures LastConfigIndex(abi, d) < |DeviceRecords(abi, d)|
    ensures Offset(abi, DeviceRecords(abi, d), LastConfigIndex(abi, d))
         == abi.deviceInfoSize + ConfigsSize(abi, d.configs[..|d.configs| - 1])
  {
    var recs := DeviceRecords(abi, d);
    var init := d.configs[..|d.configs| - 1];
    var front := ConfigsRecords(abi, init, abi.deviceInfoSize);
    var last := ConfigRecords(abi, d.configs[|d.configs| - 1], abi.deviceInfoSize + ConfigsSize(abi, init));
    var head := [DeviceHead(abi, d, d.configs)];
    var k := LastConfigIndex(abi, d);
    assert k < |recs| && recs[..k] == head + front by {
      assert recs == head + (front + last);
      PrefixOfAppend(head, front, last);
    }
    RecordsSizeAppend(abi, head, front);
    assert RecordsSize(abi, head) == abi.deviceInfoSize by {
      assert head[1..] == [];
    }
    ConfigsRecordsSize(abi, init, abi.deviceInfoSize);
  }

  lemma {:induction false} PrefixOfAppend<T>(x: seq<T>, y: seq<T>, z: seq<T>)
    ensures (x + (y + z))[..|x| + |y|] == x + y
  {
    assert (x + (y + z)) == (x + y) + z;
  }

  /** pActiveInterface[j] is written exactly when some configuration has an
      interface j. */
  lemma {:induction false} ActiveInterfacesDomain(abi: Abi, cs: seq<Config>, base: nat, j: nat)
    ensures j in ActiveInterfaces(abi, cs, base)
        <==> exists i :: 0 <= i < |cs| && j < |cs[i].interfaces|
  {
    if cs != [] {
      var init := cs[..|cs| - 1];
      var last := cs[|cs| - 1];
      ActiveInterfacesDomain(abi, init, base, j);
      var o := InterfaceOffsets(abi, base + ConfigsSize(abi, init) + abi.configSize, |last.interfaces|);
      assert ActiveInterfaces(abi, cs, base) == ActiveInterfaces(abi, init, base) + o;
      InterfaceOffsetsAt(abi, base + ConfigsSize(abi, init) + abi.configSize, |last.interfaces|, j);
      if exists i :: 0 <= i < |cs| && j < |cs[i].interfaces| {
        var i :| 0 <= i < |cs| && j < |cs[i].interfaces|;
        if i < |init| {
          assert init[i] == cs[i];
        }
      }
      if exists i :: 0 <= i < |init| && j < |init[i].interfaces| {
        var i :| 0 <= i < |init| && j < |init[i].interfaces|;
        assert init[i] == cs[i];
      }
    }
  }

  /** The entry refers to interface record j of the last configuration that
      has an interface j (configuration i starts at base + ConfigsSize(cs[..i])). */
  lemma {:induction false} ActiveInterfacesValue(abi: Abi, cs: seq<Config>, base: nat, j: nat, i: nat)
    requires i < |cs| && j < |cs[i].interfaces|
    requires forall i2 :: i < i2 < |cs| ==> |cs[i2].interfaces| <= j
    ensures j in ActiveInterfaces(abi, cs, base)
    ensures ActiveInterfaces(abi, cs, base)[j]
         == base + ConfigsSize(abi, cs[..i]) + abi.configSize + Times(abi.interfaceSize, j)
  {
    var init := cs[..|cs| - 1];
    var last := cs[|cs| - 1];
    var want := base + ConfigsSize(abi, cs[..i]) + abi.configSize + Times(abi.interfaceSize, j);
    var first := base + ConfigsSize(abi, init) + abi.configSize;
    var o := InterfaceOffsets(abi, first, |last.interfaces|);
    var m := ActiveInterfaces(abi, init, base);
    assert ActiveInterfaces(abi, cs, base) == m + o;
    InterfaceOffsetsAt(abi, first, |last.interfaces|, j);
    if i == |cs| - 1 {
      assert j in o && o[j] == want by {
        assert cs[..i] == init;
      }
    } else {
      assert j !in o && j in m && m[j] == want by {
        assert |last.interfaces| <= j;
        assert init[i] == cs[i];
        assert forall i2 :: i < i2 < |init| ==> init[i2] == cs[i2];
        ActiveInterfacesValue(abi, init, base, j, i);
        assert init[..i] == cs[..i];
      }
    }
  }
}
