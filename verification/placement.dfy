/**
 * Where each structure of a device sits in the whole buffer the fill pass
 * writes. The lemmas of Layout describe a configuration or an alternate
 * setting relative to the offset it is laid out at; the lemmas here show
 * that each one really is laid out at that offset in the device's buffer,
 * and restate the stored references as byte offsets of records of that
 * buffer.
 */
module Placement {

  import opened Usb
  import opened Abi
  import opened Serializer
  import opened Layout

  /** sub occupies the records of recs from index k on, and, with recs laid
      out at byte rb, starts at byte b. */
  predicate Within(abi: Abi, recs: seq<Record>, rb: nat, k: nat, sub: seq<Record>, b: nat) {
    k + |sub| <= |recs| && recs[k..k + |sub|] == sub && rb + Offset(abi, recs, k) == b
  }

  /** The byte offset of a record inside sub, seen from recs. */
  lemma {:induction false} OffsetWithin(abi: Abi, recs: seq<Record>, k: nat, sub: seq<Record>, j: nat)
    requires k + |sub| <= |recs| && recs[k..k + |sub|] == sub && j <= |sub|
    ensures Offset(abi, recs, k + j) == Offset(abi, recs, k) + Offset(abi, sub, j)
  {
    assert recs[..k + j] == recs[..k] + sub[..j];
    RecordsSizeAppend(abi, recs[..k], sub[..j]);
  }

  /** A structure inside a structure inside recs is inside recs. */
  lemma {:induction false} WithinTrans(abi: Abi, recs: seq<Record>, rb: nat, k: nat, sub: seq<Record>,
                                       sb: nat, k2: nat, inner: seq<Record>, b: nat, kk: nat)
    requires Within(abi, recs, rb, k, sub, sb) && Within(abi, sub, sb, k2, inner, b)
    requires kk == k + k2
    ensures Within(abi, recs, rb, kk, inner, b)
  {
    forall t | 0 <= t < |inner|
      ensures recs[k + k2..k + k2 + |inner|][t] == inner[t]
    {
      assert inner[t] == sub[k2 + t] == recs[k..k + |sub|][k2 + t];
    }
    OffsetWithin(abi, recs, k, sub, k2);
  }

  /** Record j of a structure inside recs, and its byte offset. */
  lemma {:induction false} WithinAt(abi: Abi, recs: seq<Record>, rb: nat, k: nat, sub: seq<Record>,
                                    b: nat, j: nat, kj: nat)
    requires Within(abi, recs, rb, k, sub, b) && j < |sub| && kj == k + j
    ensures kj < |recs| && recs[kj] == sub[j]
    ensures rb + Offset(abi, recs, kj) == b + Offset(abi, sub, j)
  {
    assert recs[k + j] == recs[k..k + |sub|][j];
    OffsetWithin(abi, recs, k, sub, j);
  }

  /** A structure X that follows the prefix P of the part Y of recs after H
      starts where H and P end. */
  lemma {:induction false} WithinOfParts(abi: Abi, recs: seq<Record>, rb: nat, H: seq<Record>,
                                         Y: seq<Record>, P: seq<Record>, X: seq<Record>, k: nat, b: nat)
    requires recs == H + Y && P + X <= Y
    requires k == |H| + |P| && b == rb + RecordsSize(abi, H) + RecordsSize(abi, P)
    ensures Within(abi, recs, rb, k, X, b)
  {
    assert recs[..|H| + |P|] == H + P;
    assert recs[|H| + |P|..|H| + |P| + |X|] == Y[|P|..|P| + |X|] == (P + X)[|P|..];
    RecordsSizeAppend(abi, H, P);
  }

  /** The records of configurations 0..i are those of 0..i-1 followed by
      those of configuration i, laid out at b. */
  lemma {:induction false} ConfigsRecordsStep(abi: Abi, cs: seq<Config>, base: nat, i: nat, b: nat)
    requires i < |cs| && b == base + ConfigsSize(abi, cs[..i])
    ensures ConfigsRecords(abi, cs[..i + 1], base) == ConfigsRecords(abi, cs[..i], base) + ConfigRecords(abi, cs[i], b)
  {
    assert cs[..i + 1][..i] == cs[..i];
  }

  lemma {:induction false} ConfigsRecordsPrefix(abi: Abi, cs: seq<Config>, base: nat, i: nat)
    requires i <= |cs|
    ensures ConfigsRecords(abi, cs[..i], base) <= ConfigsRecords(abi, cs, base)
  {
    if i < |cs| {
      var init := cs[..|cs| - 1];
      assert cs[..i] == init[..i];
      ConfigsRecordsPrefix(abi, init, base, i);
    } else {
      assert cs[..i] == cs;
    }
  }

  /** The same for the interfaces of a configuration. */
  lemma {:induction false} IfacesRecordsStep(abi: Abi, ifaces: seq<Interface>, base: nat, q: nat, b: nat)
    requires q < |ifaces| && b == base + IfacesSize(abi, ifaces[..q])
    ensures IfacesRecords(abi, ifaces[..q + 1], base)
         == IfacesRecords(abi, ifaces[..q], base) + AltsRecords(abi, ifaces[q].altsettings, b)
  {
    assert ifaces[..q + 1][..q] == ifaces[..q];
  }

  /** The same for the alternate settings of an interface. */
  lemma {:induction false} AltsRecordsStep(abi: Abi, alts: seq<AltSetting>, base: nat, m: nat, b: nat)
    requires m < |alts| && b == base + AltsSize(abi, alts[..m])
    ensures AltsRecords(abi, alts[..m + 1], base) == AltsRecords(abi, alts[..m], base) + AltRecords(abi, alts[m], b)
  {
    assert alts[..m + 1][..m] == alts[..m];
  }

  lemma {:induction false} AltsRecordsPrefix(abi: Abi, alts: seq<AltSetting>, base: nat, m: nat)
    requires m <= |alts|
    ensures AltsRecords(abi, alts[..m], base) <= AltsRecords(abi, alts, base)
  {
    if m < |alts| {
      var init := alts[..|alts| - 1];
      assert alts[..m] == init[..m];
      AltsRecordsPrefix(abi, init, base, m);
    } else {
      assert alts[..m] == alts;
    }
  }

  /** The abstract form of the three steps: P + X begins Y when P + X is a
      prefix S of Y. */
  lemma PrefixOfStep(S: seq<Record>, P: seq<Record>, X: seq<Record>, Y: seq<Record>)
    requires S == P + X && S <= Y
    ensures P + X <= Y
  {}

  // ---------------------------------------------------------------------
  // Each level inside the one above it
  // ---------------------------------------------------------------------

  /** Alternate setting m of an interface follows the records of settings
      0..m-1 and is laid out at b, the offset their sizes add up to. */
  lemma {:induction false} AltWithin(abi: Abi, alts: seq<AltSetting>, base: nat, m: nat, b: nat)
    requires m < |alts| && b == base + AltsSize(abi, alts[..m])
    ensures Within(abi, AltsRecords(abi, alts, base), base, |AltsRecords(abi, alts[..m], base)|,
                   AltRecords(abi, alts[m], b), b)
  {
    var P := AltsRecords(abi, alts[..m], base);
    var X := AltRecords(abi, alts[m], b);
    AltsRecordsStep(abi, alts, base, m, b);
    AltsRecordsPrefix(abi, alts, base, m + 1);
    PrefixOfStep(AltsRecords(abi, alts[..m + 1], base), P, X, AltsRecords(abi, alts, base));
    AltsRecordsSize(abi, alts[..m], base);
    assert [] + AltsRecords(abi, alts, base) == AltsRecords(abi, alts, base);
    WithinOfParts(abi, AltsRecords(abi, alts, base), base, [], AltsRecords(abi, alts, base), P, X, |P|, b);
  }

  /** A structure inside the part Y of recs that follows H is inside recs,
      H records further on. */
  lemma {:induction false} WithinShift(abi: Abi, recs: seq<Record>, rb: nat, H: seq<Record>, Y: seq<Record>,
                                       yb: nat, k: nat, X: seq<Record>, b: nat, kk: nat)
    requires recs == H + Y && yb == rb + RecordsSize(abi, H) && Within(abi, Y, yb, k, X, b)
    requires kk == |H| + k
    ensures Within(abi, recs, rb, kk, X, b)
  {
    assert recs[kk..kk + |X|] == Y[k..k + |X|];
    assert recs[..kk] == H + Y[..k];
    RecordsSizeAppend(abi, H, Y[..k]);
  }

  /** The alternate settings of interface q follow those of interfaces
      0..q-1 and are laid out at b, the offset their sizes add up to. */
  lemma {:induction false} IfaceAltsWithin(abi: Abi, ifaces: seq<Interface>, base: nat, q: nat, b: nat)
    requires q < |ifaces| && b == base + IfacesSize(abi, ifaces[..q])
    ensures Within(abi, IfacesRecords(abi, ifaces, base), base, |IfacesRecords(abi, ifaces[..q], base)|,
                   AltsRecords(abi, ifaces[q].altsettings, b), b)
  {
    var P := IfacesRecords(abi, ifaces[..q], base);
    var X := AltsRecords(abi, ifaces[q].altsettings, b);
    IfacesRecordsStep(abi, ifaces, base, q, b);
    IfacesRecordsPrefix(abi, ifaces, base, q + 1);
    PrefixOfStep(IfacesRecords(abi, ifaces[..q + 1], base), P, X, IfacesRecords(abi, ifaces, base));
    IfacesRecordsSize(abi, ifaces[..q], base);
    assert [] + IfacesRecords(abi, ifaces, base) == IfacesRecords(abi, ifaces, base);
    WithinOfParts(abi, IfacesRecords(abi, ifaces, base), base, [], IfacesRecords(abi, ifaces, base), P, X, |P|, b);
  }

  /** The alternate settings of interface q of a configuration are laid out
      at AltsStart, right after those of the interfaces before it. */
  lemma {:induction false} AltsWithin(abi: Abi, c: Config, base: nat, q: nat)
    requires q < |c.interfaces|
    ensures Within(abi, ConfigRecords(abi, c, base), base, FirstAltIndex(abi, c, base, q),
                   AltsRecords(abi, c.interfaces[q].altsettings, AltsStart(abi, c, base, q)),
                   AltsStart(abi, c, base, q))
  {
    var n := |c.interfaces|;
    var b2 := base + abi.configSize + Times(abi.interfaceSize, n);
    var head := [ConfigRec(ConfigDescriptorOf(c), n, Some(base + abi.configSize))] + InterfaceRecs(abi, c, base, n);
    IfaceAltsWithin(abi, c.interfaces, b2, q, AltsStart(abi, c, base, q));
    ConfigHeadSize(abi, c, base);
    WithinShift(abi, ConfigRecords(abi, c, base), base, head, IfacesRecords(abi, c.interfaces, b2), b2,
                |IfacesRecords(abi, c.interfaces[..q], b2)|,
                AltsRecords(abi, c.interfaces[q].altsettings, AltsStart(abi, c, base, q)),
                AltsStart(abi, c, base, q), FirstAltIndex(abi, c, base, q));
  }

  /** The configuration record and its interface records take configSize
      bytes and interfaceSize bytes per interface. */
  lemma {:induction false} ConfigHeadSize(abi: Abi, c: Config, base: nat)
    ensures RecordsSize(abi, [ConfigRec(ConfigDescriptorOf(c), |c.interfaces|, Some(base + abi.configSize))]
                             + InterfaceRecs(abi, c, base, |c.interfaces|))
         == abi.configSize + Times(abi.interfaceSize, |c.interfaces|)
  {
    var head := [ConfigRec(ConfigDescriptorOf(c), |c.interfaces|, Some(base + abi.configSize))];
    var ifs := InterfaceRecs(abi, c, base, |c.interfaces|);
    SizeOfConfigPrefix(abi, head, ifs, []);
    assert head + ifs + [] == head + ifs;
  }

  /** Record index of configuration i in the device's buffer. */
  function ConfigIndex(abi: Abi, d: Device, i: nat): nat
    requires i <= |d.configs|
  {
    1 + |ConfigsRecords(abi, d.configs[..i], abi.deviceInfoSize)|
  }

  /** Byte offset of configuration i: the device record and the earlier
      configurations come before it. */
  function ConfigBase(abi: Abi, d: Device, i: nat): nat
    requires i <= |d.configs|
  {
    abi.deviceInfoSize + ConfigsSize(abi, d.configs[..i])
  }

  /** Configuration i of the device is laid out at ConfigBase, from record
      ConfigIndex on. */
  lemma {:induction false} ConfigWithin(abi: Abi, d: Device, i: nat)
    requires i < |d.configs|
    ensures Within(abi, DeviceRecords(abi, d), 0, ConfigIndex(abi, d, i),
                   ConfigRecords(abi, d.configs[i], ConfigBase(abi, d, i)), ConfigBase(abi, d, i))
  {
    var cs := d.configs;
    var head := [DeviceHead(abi, d, cs)];
    var P := ConfigsRecords(abi, cs[..i], abi.deviceInfoSize);
    var X := ConfigRecords(abi, cs[i], ConfigBase(abi, d, i));
    var Y := ConfigsRecords(abi, cs, abi.deviceInfoSize);
    assert RecordsSize(abi, head) == abi.deviceInfoSize by {
      assert head[1..] == [];
    }
    ConfigsRecordsStep(abi, cs, abi.deviceInfoSize, i, ConfigBase(abi, d, i));
    ConfigsRecordsPrefix(abi, cs, abi.deviceInfoSize, i + 1);
    PrefixOfStep(ConfigsRecords(abi, cs[..i + 1], abi.deviceInfoSize), P, X, Y);
    ConfigsRecordsSize(abi, cs[..i], abi.deviceInfoSize);
    WithinOfParts(abi, DeviceRecords(abi, d), 0, head, Y, P, X, ConfigIndex(abi, d, i), ConfigBase(abi, d, i));
  }

  // ---------------------------------------------------------------------
  // References of a structure wherever it is laid out
  // ---------------------------------------------------------------------

  /** Wherever an alternate setting is laid out, its pEndpointDescriptors[l]
      is the byte offset of the descriptor of its endpoint l. */
  lemma {:induction false} PlacedEndpoint(abi: Abi, recs: seq<Record>, rb: nat, k: nat, a: AltSetting, b: nat,
                                          l: nat, kl: nat)
    requires Within(abi, recs, rb, k, AltRecords(abi, a, b), b) && l < |a.endpoints| && kl == k + 1 + l
    ensures kl < |recs| && recs[k].AltSettingRec? && recs[k].pEndpointDescriptors.Some?
    ensures recs[kl] == EndpointRec(a.endpoints[l])
    ensures rb + Offset(abi, recs, kl) == recs[k].pEndpointDescriptors.value + Times(abi.endpointSize, l)
  {
    AltEndpointReference(abi, a, b, l);
    WithinAt(abi, recs, rb, k, AltRecords(abi, a, b), b, 0, k);
    WithinAt(abi, recs, rb, k, AltRecords(abi, a, b), b, 1 + l, kl);
  }

  /** Wherever an alternate setting is laid out, its pPipes[l] is the byte
      offset of the pipe of its endpoint l. */
  lemma {:induction false} PlacedPipe(abi: Abi, recs: seq<Record>, rb: nat, k: nat, a: AltSetting, b: nat,
                                      l: nat, kl: nat)
    requires Within(abi, recs, rb, k, AltRecords(abi, a, b), b) && l < |a.endpoints|
    requires kl == k + 1 + |a.endpoints| + l
    ensures kl < |recs| && recs[k].AltSettingRec? && recs[k].pPipes.Some?
    ensures recs[kl] == PipeRec(PipeOf(abi, a.endpoints[l]))
    ensures rb + Offset(abi, recs, kl) == recs[k].pPipes.value + Times(abi.pipeInfoSize, l)
  {
    AltPipeReference(abi, a, b, l);
    WithinAt(abi, recs, rb, k, AltRecords(abi, a, b), b, 0, k);
    WithinAt(abi, recs, rb, k, AltRecords(abi, a, b), b, 1 + |a.endpoints| + l, kl);
  }

  /** Wherever a configuration is laid out, its record comes first, at its
      own offset, and its pInterfaces[q] is the byte offset of the record of
      interface q. */
  lemma {:induction false} PlacedInterface(abi: Abi, recs: seq<Record>, rb: nat, k: nat, c: Config, b: nat,
                                           q: nat, kq: nat)
    requires Within(abi, recs, rb, k, ConfigRecords(abi, c, b), b) && q < |c.interfaces| && kq == k + 1 + q
    ensures kq < |recs| && recs[k].ConfigRec? && recs[k].config == ConfigDescriptorOf(c)
    ensures rb + Offset(abi, recs, k) == b && recs[k].pInterfaces == Some(b + abi.configSize)
    ensures recs[kq].InterfaceRec? && recs[kq].dwNumAltSettings == |c.interfaces[q].altsettings|
    ensures rb + Offset(abi, recs, kq) == recs[k].pInterfaces.value + Times(abi.interfaceSize, q)
  {
    var CR := ConfigRecords(abi, c, b);
    ConfigInterfaceReferences(abi, c, b, q);
    assert CR[0].pInterfaces == Some(b + abi.configSize);
    WithinAt(abi, recs, rb, k, CR, b, 0, k);
    WithinAt(abi, recs, rb, k, CR, b, 1 + q, kq);
    assert CR[..0] == [];
  }

  // ---------------------------------------------------------------------
  // Alternate settings in the device's buffer
  // ---------------------------------------------------------------------

  /** Record index of alternate setting m of interface q of configuration i. */
  function AltIndex(abi: Abi, d: Device, i: nat, q: nat, m: nat): nat
    requires i < |d.configs| && q < |d.configs[i].interfaces|
    requires m <= |d.configs[i].interfaces[q].altsettings|
  {
    var c := d.configs[i];
    ConfigIndex(abi, d, i) + FirstAltIndex(abi, c, ConfigBase(abi, d, i), q)
      + |AltsRecords(abi, c.interfaces[q].altsettings[..m], AltsStart(abi, c, ConfigBase(abi, d, i), q))|
  }

  /** Byte offset of that alternate setting. */
  function AltBase(abi: Abi, d: Device, i: nat, q: nat, m: nat): nat
    requires i < |d.configs| && q < |d.configs[i].interfaces|
    requires m <= |d.configs[i].interfaces[q].altsettings|
  {
    var c := d.configs[i];
    AltsStart(abi, c, ConfigBase(abi, d, i), q) + AltsSize(abi, c.interfaces[q].altsettings[..m])
  }

  /** Alternate setting m of interface q of a configuration laid out at
      base sits at byte b, after the alternate settings before it. */
  lemma {:induction false} AltInConfig(abi: Abi, c: Config, base: nat, q: nat, m: nat, b: nat)
    requires q < |c.interfaces| && m < |c.interfaces[q].altsettings|
    requires b == AltsStart(abi, c, base, q) + AltsSize(abi, c.interfaces[q].altsettings[..m])
    ensures Within(abi, ConfigRecords(abi, c, base), base,
                   FirstAltIndex(abi, c, base, q)
                     + |AltsRecords(abi, c.interfaces[q].altsettings[..m], AltsStart(abi, c, base, q))|,
                   AltRecords(abi, c.interfaces[q].altsettings[m], b), b)
  {
    var alts := c.interfaces[q].altsettings;
    var start := AltsStart(abi, c, base, q);
    AltsWithin(abi, c, base, q);
    AltWithin(abi, alts, start, m, b);
    WithinTrans(abi, ConfigRecords(abi, c, base), base, FirstAltIndex(abi, c, base, q), AltsRecords(abi, alts, start),
                start, |AltsRecords(abi, alts[..m], start)|, AltRecords(abi, alts[m], b), b,
                FirstAltIndex(abi, c, base, q) + |AltsRecords(abi, alts[..m], start)|);
  }

  /** Alternate setting m of interface q of configuration i is laid out at
      AltBase, from record AltIndex on. */
  lemma {:induction false} AltInDevice(abi: Abi, d: Device, i: nat, q: nat, m: nat)
    requires i < |d.configs| && q < |d.configs[i].interfaces|
    requires m < |d.configs[i].interfaces[q].altsettings|
    ensures Within(abi, DeviceRecords(abi, d), 0, AltIndex(abi, d, i, q, m),
                   AltRecords(abi, d.configs[i].interfaces[q].altsettings[m], AltBase(abi, d, i, q, m)),
                   AltBase(abi, d, i, q, m))
  {
    var c := d.configs[i];
    var cb := ConfigBase(abi, d, i);
    var alts := c.interfaces[q].altsettings;
    ConfigWithin(abi, d, i);
    AltInConfig(abi, c, cb, q, m, AltBase(abi, d, i, q, m));
    WithinTrans(abi, DeviceRecords(abi, d), 0, ConfigIndex(abi, d, i), ConfigRecords(abi, c, cb), cb,
                FirstAltIndex(abi, c, cb, q) + |AltsRecords(abi, alts[..m], AltsStart(abi, c, cb, q))|,
                AltRecords(abi, alts[m], AltBase(abi, d, i, q, m)), AltBase(abi, d, i, q, m),
                AltIndex(abi, d, i, q, m));
  }

  /** Every alternate setting of every interface of every configuration has
      its record, with its own interface descriptor, at AltIndex, which is
      byte AltBase of the device's buffer. */
  lemma {:induction false} DeviceAltSetting(abi: Abi, d: Device, i: nat, q: nat, m: nat)
    requires i < |d.configs| && q < |d.configs[i].interfaces|
    requires m < |d.configs[i].interfaces[q].altsettings|
    ensures AltIndex(abi, d, i, q, m) < |DeviceRecords(abi, d)|
    ensures DeviceRecords(abi, d)[AltIndex(abi, d, i, q, m)].AltSettingRec?
    ensures DeviceRecords(abi, d)[AltIndex(abi, d, i, q, m)].iface
         == InterfaceDescriptorOf(d.configs[i].interfaces[q].altsettings[m])
    ensures Offset(abi, DeviceRecords(abi, d), AltIndex(abi, d, i, q, m)) == AltBase(abi, d, i, q, m)
  {
    var a := d.configs[i].interfaces[q].altsettings[m];
    var A := AltRecords(abi, a, AltBase(abi, d, i, q, m));
    AltInDevice(abi, d, i, q, m);
    WithinAt(abi, DeviceRecords(abi, d), 0, AltIndex(abi, d, i, q, m), A, AltBase(abi, d, i, q, m),
             0, AltIndex(abi, d, i, q, m));
    assert A[..0] == [];
  }

  /** pEndpointDescriptors[l] of any alternate setting is the byte offset, in
      the device's buffer, of the descriptor of its endpoint l. */
  lemma {:induction false} DeviceEndpointReference(abi: Abi, d: Device, i: nat, q: nat, m: nat, l: nat)
    requires i < |d.configs| && q < |d.configs[i].interfaces|
    requires m < |d.configs[i].interfaces[q].altsettings|
    requires l < |d.configs[i].interfaces[q].altsettings[m].endpoints|
    ensures AltIndex(abi, d, i, q, m) + 1 + l < |DeviceRecords(abi, d)|
    ensures DeviceRecords(abi, d)[AltIndex(abi, d, i, q, m)].AltSettingRec?
    ensures DeviceRecords(abi, d)[AltIndex(abi, d, i, q, m)].pEndpointDescriptors.Some?
    ensures DeviceRecords(abi, d)[AltIndex(abi, d, i, q, m) + 1 + l]
         == EndpointRec(d.configs[i].interfaces[q].altsettings[m].endpoints[l])
    ensures Offset(abi, DeviceRecords(abi, d), AltIndex(abi, d, i, q, m) + 1 + l)
         == DeviceRecords(abi, d)[AltIndex(abi, d, i, q, m)].pEndpointDescriptors.value
            + Times(abi.endpointSize, l)
  {
    AltInDevice(abi, d, i, q, m);
    PlacedEndpoint(abi, DeviceRecords(abi, d), 0, AltIndex(abi, d, i, q, m),
                   d.configs[i].interfaces[q].altsettings[m], AltBase(abi, d, i, q, m),
                   l, AltIndex(abi, d, i, q, m) + 1 + l);
  }

  /** pPipes[l] of any alternate setting is the byte offset, in the device's
      buffer, of the pipe of its endpoint l. */
  lemma {:induction false} DevicePipeReference(abi: Abi, d: Device, i: nat, q: nat, m: nat, l: nat)
    requires i < |d.configs| && q < |d.configs[i].interfaces|
    requires m < |d.configs[i].interfaces[q].altsettings|
    requires l < |d.configs[i].interfaces[q].altsettings[m].endpoints|
    ensures PipeIndex(abi, d, i, q, m, l) < |DeviceRecords(abi, d)|
    ensures DeviceRecords(abi, d)[AltIndex(abi, d, i, q, m)].AltSettingRec?
    ensures DeviceRecords(abi, d)[AltIndex(abi, d, i, q, m)].pPipes.Some?
    ensures DeviceRecords(abi, d)[PipeIndex(abi, d, i, q, m, l)]
         == PipeRec(PipeOf(abi, d.configs[i].interfaces[q].altsettings[m].endpoints[l]))
    ensures Offset(abi, DeviceRecords(abi, d), PipeIndex(abi, d, i, q, m, l))
         == DeviceRecords(abi, d)[AltIndex(abi, d, i, q, m)].pPipes.value + Times(abi.pipeInfoSize, l)
  {
    AltInDevice(abi, d, i, q, m);
    PlacedPipe(abi, DeviceRecords(abi, d), 0, AltIndex(abi, d, i, q, m),
               d.configs[i].interfaces[q].altsettings[m], AltBase(abi, d, i, q, m),
               l, PipeIndex(abi, d, i, q, m, l));
  }

  /** Record index of the pipe of endpoint l of that alternate setting: after
      the alternate setting record and all of its endpoint descriptors. */
  function PipeIndex(abi: Abi, d: Device, i: nat, q: nat, m: nat, l: nat): nat
    requires i < |d.configs| && q < |d.configs[i].interfaces|
    requires m < |d.configs[i].interfaces[q].altsettings|
  {
    AltIndex(abi, d, i, q, m) + 1 + |d.configs[i].interfaces[q].altsettings[m].endpoints| + l
  }

  // ---------------------------------------------------------------------
  // Configurations and interfaces in the device's buffer
  // ---------------------------------------------------------------------

  /** Configuration i's record is at ConfigIndex, byte ConfigBase; its
      interface records follow it, and pInterfaces[q] is the byte offset of
      the record of interface q. */
  lemma {:induction false} DeviceInterfaceReference(abi: Abi, d: Device, i: nat, q: nat)
    requires i < |d.configs| && q < |d.configs[i].interfaces|
    ensures ConfigIndex(abi, d, i) + 1 + q < |DeviceRecords(abi, d)|
    ensures DeviceRecords(abi, d)[ConfigIndex(abi, d, i)].ConfigRec?
    ensures DeviceRecords(abi, d)[ConfigIndex(abi, d, i)].config == ConfigDescriptorOf(d.configs[i])
    ensures Offset(abi, DeviceRecords(abi, d), ConfigIndex(abi, d, i)) == ConfigBase(abi, d, i)
    ensures DeviceRecords(abi, d)[ConfigIndex(abi, d, i)].pInterfaces
         == Some(ConfigBase(abi, d, i) + abi.configSize)
    ensures DeviceRecords(abi, d)[ConfigIndex(abi, d, i) + 1 + q].InterfaceRec?
    ensures DeviceRecords(abi, d)[ConfigIndex(abi, d, i) + 1 + q].dwNumAltSettings
         == |d.configs[i].interfaces[q].altsettings|
    ensures Offset(abi, DeviceRecords(abi, d), ConfigIndex(abi, d, i) + 1 + q)
         == DeviceRecords(abi, d)[ConfigIndex(abi, d, i)].pInterfaces.value + Times(abi.interfaceSize, q)
  {
    ConfigWithin(abi, d, i);
    PlacedInterface(abi, DeviceRecords(abi, d), 0, ConfigIndex(abi, d, i), d.configs[i], ConfigBase(abi, d, i),
                    q, ConfigIndex(abi, d, i) + 1 + q);
  }

  /** pAlternateSettings and pActiveAltSetting of interface q are the byte
      offset, in the device's buffer, of its alternate setting 0. */
  lemma {:induction false} DeviceAltSettingsReference(abi: Abi, d: Device, i: nat, q: nat)
    requires i < |d.configs| && q < |d.configs[i].interfaces|
    ensures ConfigIndex(abi, d, i) + 1 + q < |DeviceRecords(abi, d)|
    ensures AltIndex(abi, d, i, q, 0) <= |DeviceRecords(abi, d)|
    ensures DeviceRecords(abi, d)[ConfigIndex(abi, d, i) + 1 + q].InterfaceRec?
    ensures DeviceRecords(abi, d)[ConfigIndex(abi, d, i) + 1 + q].pAlternateSettings
         == Some(Offset(abi, DeviceRecords(abi, d), AltIndex(abi, d, i, q, 0)))
    ensures DeviceRecords(abi, d)[ConfigIndex(abi, d, i) + 1 + q].pActiveAltSetting
         == DeviceRecords(abi, d)[ConfigIndex(abi, d, i) + 1 + q].pAlternateSettings
  {
    var c := d.configs[i];
    var cb := ConfigBase(abi, d, i);
    var alts := c.interfaces[q].altsettings;
    var start := AltsStart(abi, c, cb, q);
    var CR := ConfigRecords(abi, c, cb);
    ConfigWithin(abi, d, i);
    ConfigInterfaceReferences(abi, c, cb, q);
    WithinAt(abi, DeviceRecords(abi, d), 0, ConfigIndex(abi, d, i), CR, cb, 1 + q, ConfigIndex(abi, d, i) + 1 + q);
    AltsWithin(abi, c, cb, q);
    assert AltsRecords(abi, alts[..0], start) == [] by {
      assert alts[..0] == [];
    }
    WithinTrans(abi, DeviceRecords(abi, d), 0, ConfigIndex(abi, d, i), CR, cb,
                FirstAltIndex(abi, c, cb, q), AltsRecords(abi, alts, start), start, AltIndex(abi, d, i, q, 0));
  }

  /** pActiveInterface[j] is the byte offset, in the device's buffer, of the
      record of interface j of the last configuration that has one. */
  lemma {:induction false} DeviceActiveInterface(abi: Abi, d: Device, i: nat, j: nat)
    requires i < |d.configs| && j < |d.configs[i].interfaces|
    requires forall i2 :: i < i2 < |d.configs| ==> |d.configs[i2].interfaces| <= j
    ensures ConfigIndex(abi, d, i) + 1 + j < |DeviceRecords(abi, d)|
    ensures DeviceRecords(abi, d)[ConfigIndex(abi, d, i) + 1 + j].InterfaceRec?
    ensures j in DeviceRecords(abi, d)[0].pActiveInterface
    ensures DeviceRecords(abi, d)[0].pActiveInterface[j]
         == Offset(abi, DeviceRecords(abi, d), ConfigIndex(abi, d, i) + 1 + j)
  {
    assert DeviceRecords(abi, d)[0].pActiveInterface == ActiveInterfaces(abi, d.configs, abi.deviceInfoSize);
    ActiveInterfacesValue(abi, d.configs, abi.deviceInfoSize, j, i);
    DeviceInterfaceReference(abi, d, i, j);
  }

  /** pConfigs and pActiveConfig refer to configuration |configs| - 1, the
      last one written, at its byte offset ConfigBase. */
  lemma {:induction false} DeviceLastConfig(abi: Abi, d: Device)
    requires |d.configs| > 0
    ensures LastConfigIndex(abi, d) == ConfigIndex(abi, d, |d.configs| - 1)
    ensures DeviceRecords(abi, d)[0].pConfigs == Some(ConfigBase(abi, d, |d.configs| - 1))
    ensures DeviceRecords(abi, d)[0].pActiveConfig == DeviceRecords(abi, d)[0].pConfigs
  {
    DeviceConfigReference(abi, d);
    LastConfigOffset(abi, d);
  }
}
