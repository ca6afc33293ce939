/**
 * EVENT_REGISTER's device matcher and EVENT_PULL's report of the selected
 * device.
 *
 * A device is identified by its position on the enumerated busses (the
 * `struct usb_device *` the C code keeps is a pointer into that list).
 */
module Events {

  import opened Usb

  /** One WDU_MATCH_TABLE of the event payload. */
  datatype MatchTable = MatchTable(
    vendorId: Word, productId: Word, deviceClass: Byte, deviceSubClass: Byte,
    interfaceClass: Byte, interfaceSubClass: Byte, interfaceProtocol: Byte)

  /** The fields of the event payload the two operations read or write. */
  datatype Event = Event(
    handle: nat, action: nat, eventId: nat, cardType: nat, uniqueId: nat,
    numMatchTables: nat, matchTables: seq<MatchTable>)

  /** Device `index` on bus `bus`. */
  datatype DeviceRef = DeviceRef(bus: nat, index: nat)

  predicate ValidRef(busses: Busses, r: DeviceRef) {
    r.bus < |busses| && r.index < |busses[r.bus]|
  }

  /** The globals usbdevice (NULL is None) and card_type. */
  datatype Selection = Selection(dev: Option<DeviceRef>, cardType: nat)


  // ---------------------------------------------------------------------
  // When a device matches a table
  // ---------------------------------------------------------------------

  /** Vendor, product, device class and device subclass are all equal. */
  predicate DeviceFieldsMatch(t: MatchTable, d: Device) {
    && d.descriptor.idVendor == t.vendorId && d.descriptor.idProduct == t.productId
    && d.descriptor.bDeviceClass == t.deviceClass
    && d.descriptor.bDeviceSubClass == t.deviceSubClass
  }

  /** Interface subclass and protocol are equal; the interface class is not
      compared. */
  predicate AltMatch(t: MatchTable, a: AltSetting) {
    a.bInterfaceSubClass == t.interfaceSubClass && a.bInterfaceProtocol == t.interfaceProtocol
  }

  /** Some alternate setting of the configuration's FIRST interface matches. */
  predicate ConfigHit(t: MatchTable, c: Config) {
    |c.interfaces| > 0
    && exists ai :: 0 <= ai < |c.interfaces[0].altsettings|
                    && AltMatch(t, c.interfaces[0].altsettings[ai])
  }

  predicate DevHit(t: MatchTable, d: Device) {
    DeviceFieldsMatch(t, d) && exists ac :: 0 <= ac < |d.configs| && ConfigHit(t, d.configs[ac])
  }

  /** What the match does not look at: the table's interface class, and
      every interface of a configuration but the first. */
  lemma {:induction false} HitIgnores(t: MatchTable, d: Device, ic: Byte, ac: nat, rest: seq<Interface>)
    requires ac < |d.configs| && |d.configs[ac].interfaces| > 0
    ensures DevHit(t.(interfaceClass := ic), d) == DevHit(t, d)
    ensures var c := d.configs[ac];
            DevHit(t, d.(configs := d.configs[ac := c.(interfaces := [c.interfaces[0]] + rest)]))
            == DevHit(t, d)
  {
    var c := d.configs[ac];
    var d' := d.(configs := d.configs[ac := c.(interfaces := [c.interfaces[0]] + rest)]);
    forall a | 0 <= a < |d.configs|
      ensures ConfigHit(t, d'.configs[a]) == ConfigHit(t, d.configs[a])
    {
      if a == ac {
        assert d'.configs[a].interfaces[0] == c.interfaces[0];
      }
    }
  }

  // ---------------------------------------------------------------------
  // The scan: table, bus, device, configuration, alternate setting
  // ---------------------------------------------------------------------

  function Hit(b: nat, k: nat, cardType: nat): Selection {
    Selection(Some(DeviceRef(b, k)), cardType)
  }

  /** The selection after scanning the devices of bus b for table t. */
  function ScanDevices(t: MatchTable, devs: seq<Device>, b: nat, cardType: nat, sel: Selection)
    : Selection
  {
    if devs == [] then sel
    else
      var k := |devs| - 1;
      var before := ScanDevices(t, devs[..k], b, cardType, sel);
      if DevHit(t, devs[k]) then Hit(b, k, cardType) else before
  }

  function ScanBusses(t: MatchTable, busses: Busses, cardType: nat, sel: Selection): Selection {
    if busses == [] then sel
    else
      var b := |busses| - 1;
      ScanDevices(t, busses[b], b, cardType, ScanBusses(t, busses[..b], cardType, sel))
  }

  /** The selection after EVENT_REGISTER's loops, starting from `sel`. */
  function ScanTables(tables: seq<MatchTable>, busses: Busses, cardType: nat, sel: Selection)
    : Selection
  {
    if tables == [] then sel
    else
      var i := |tables| - 1;
      ScanBusses(tables[i], busses, cardType, ScanTables(tables[..i], busses, cardType, sel))
  }

  /** The loops of EVENT_REGISTER. Every hit overwrites usbdevice and
      card_type; there is no early exit. */
  method Scan(tables: seq<MatchTable>, busses: Busses, cardType: nat, sel0: Selection)
    returns (sel: Selection)
    requires AllEnumerated(busses)
    ensures sel == ScanTables(tables, busses, cardType, sel0)
  {
    sel := sel0;
    var i := 0;
    while i < |tables|
      invariant 0 <= i <= |tables|
      invariant sel == ScanTables(tables[..i], busses, cardType, sel0)
    {
      var t := tables[i];
      ghost var atTable := sel;
      var b := 0;
      while b < |busses|
        invariant 0 <= b <= |busses|
        invariant sel == ScanBusses(t, busses[..b], cardType, atTable)
      {
        ghost var atBus := sel;
        var k := 0;
        while k < |busses[b]|
          invariant 0 <= k <= |busses[b]|
          invariant sel == ScanDevices(t, busses[b][..k], b, cardType, atBus)
        {
          var dev := busses[b][k];
          ghost var atDev := sel;
          if DeviceFieldsMatch(t, dev) {
            assert busses[b] in busses && dev in busses[b];
            sel := ScanConfigs(t, dev, b, k, cardType, sel);
          }
          assert sel == if DevHit(t, dev) then Hit(b, k, cardType) else atDev;
          assert busses[b][..k + 1][..k] == busses[b][..k];
          k := k + 1;
        }
        assert busses[b][..k] == busses[b];
        assert busses[..b + 1][..b] == busses[..b];
        b := b + 1;
      }
      assert busses[..b] == busses;
      assert tables[..i + 1][..i] == tables[..i];
      i := i + 1;
    }
    assert tables[..i] == tables;
  }

  /** The `ac` and `ai` loops for one device whose descriptor fields match. */
  method ScanConfigs(t: MatchTable, dev: Device, b: nat, k: nat, cardType: nat, sel0: Selection)
    returns (sel: Selection)
    requires Enumerated(dev)
    ensures sel == if exists ac :: 0 <= ac < |dev.configs| && ConfigHit(t, dev.configs[ac])
                   then Hit(b, k, cardType) else sel0
  {
    sel := sel0;
    var ac := 0;
    while ac < |dev.configs|
      invariant 0 <= ac <= |dev.configs|
      invariant sel == if exists a :: 0 <= a < ac && ConfigHit(t, dev.configs[a])
                       then Hit(b, k, cardType) else sel0
    {
      assert dev.configs[ac] in dev.configs;
      var iface := dev.configs[ac].interfaces[0];
      var ai := 0;
      while ai < |iface.altsettings|
        invariant 0 <= ai <= |iface.altsettings|
        invariant sel == if (exists a :: 0 <= a < ac && ConfigHit(t, dev.configs[a]))
                            || (exists x :: 0 <= x < ai && AltMatch(t, iface.altsettings[x]))
                         then Hit(b, k, cardType) else sel0
      {
        if AltMatch(t, iface.altsettings[ai]) {
          sel := Hit(b, k, cardType);
        }
        ai := ai + 1;
      }
      assert ConfigHit(t, dev.configs[ac])
         <==> exists x :: 0 <= x < ai && AltMatch(t, iface.altsettings[x]);
      ac := ac + 1;
    }
  }

  // ---------------------------------------------------------------------
  // What the scan selects
  // ---------------------------------------------------------------------

  /** Device k of the list hits t and no device after it does. */
  ghost predicate LastDevHit(t: MatchTable, devs: seq<Device>, k: nat) {
    k < |devs| && DevHit(t, devs[k])
    && forall k2: nat :: k < k2 < |devs| ==> !DevHit(t, devs[k2])
  }

  lemma {:induction false} ScanDevicesNone(t: MatchTable, devs: seq<Device>, b: nat, ct: nat, sel: Selection)
    requires forall k :: 0 <= k < |devs| ==> !DevHit(t, devs[k])
    ensures ScanDevices(t, devs, b, ct, sel) == sel
  {
    if devs != [] {
      ScanDevicesNone(t, devs[..|devs| - 1], b, ct, sel);
    }
  }

  lemma {:induction false} ScanDevicesLast(t: MatchTable, devs: seq<Device>, b: nat, ct: nat,
                                           sel: Selection, k: nat)
    requires LastDevHit(t, devs, k)
    ensures ScanDevices(t, devs, b, ct, sel) == Hit(b, k, ct)
  {
    var n := |devs| - 1;
    if k < n {
      ScanDevicesLast(t, devs[..n], b, ct, sel, k);
    }
  }

  /** Position (b2, k2) comes after (b, k) in the bus-then-device order. */
  predicate After(b2: nat, k2: nat, b: nat, k: nat) {
    b2 > b || (b2 == b && k2 > k)
  }

  /** Device k of bus b hits t and no device after it, on any bus, does. */
  ghost predicate LastBusHit(t: MatchTable, busses: Busses, b: nat, k: nat) {
    b < |busses| && k < |busses[b]| && DevHit(t, busses[b][k])
    && forall b2: nat, k2: nat :: b2 < |busses| && k2 < |busses[b2]| && After(b2, k2, b, k)
                        ==> !DevHit(t, busses[b2][k2])
  }

  ghost predicate NoBusHit(t: MatchTable, busses: Busses) {
    forall b: nat, k: nat :: b < |busses| && k < |busses[b]| ==> !DevHit(t, busses[b][k])
  }

  lemma {:induction false} ScanBussesNone(t: MatchTable, busses: Busses, ct: nat, sel: Selection)
    requires NoBusHit(t, busses)
    ensures ScanBusses(t, busses, ct, sel) == sel
  {
    if busses != [] {
      var n := |busses| - 1;
      assert forall b: nat :: b < n ==> busses[..n][b] == busses[b];
      ScanBussesNone(t, busses[..n], ct, sel);
      ScanDevicesNone(t, busses[n], n, ct, ScanBusses(t, busses[..n], ct, sel));
    }
  }

  lemma {:induction false} ScanBussesLast(t: MatchTable, busses: Busses, ct: nat, sel: Selection,
                                          b: nat, k: nat)
    requires LastBusHit(t, busses, b, k)
    ensures ScanBusses(t, busses, ct, sel) == Hit(b, k, ct)
  {
    var n := |busses| - 1;
    var before := ScanBusses(t, busses[..n], ct, sel);
    if b == n {
      assert LastDevHit(t, busses[n], k) by {
        forall k2: nat | k < k2 < |busses[n]|
          ensures !DevHit(t, busses[n][k2])
        {
          assert After(n, k2, b, k);
        }
      }
      ScanDevicesLast(t, busses[n], n, ct, before, k);
    } else {
      forall k2: nat | k2 < |busses[n]|
        ensures !DevHit(t, busses[n][k2])
      {
        assert After(n, k2, b, k);
      }
      ScanDevicesNone(t, busses[n], n, ct, before);
      assert LastBusHit(t, busses[..n], b, k) by {
        assert forall b2: nat :: b2 < n ==> busses[..n][b2] == busses[b2];
      }
      ScanBussesLast(t, busses[..n], ct, sel, b, k);
    }
  }

  /** Position (i2, b2, k2) comes after (i, b, k) in the scan order: table,
      then bus, then device. */
  predicate ScanAfter(i2: nat, b2: nat, k2: nat, i: nat, b: nat, k: nat) {
    i2 > i || (i2 == i && After(b2, k2, b, k))
  }

  ghost predicate IsHit(tables: seq<MatchTable>, busses: Busses, i: nat, b: nat, k: nat) {
    i < |tables| && b < |busses| && k < |busses[b]| && DevHit(tables[i], busses[b][k])
  }

  /** (i, b, k) is the last hit of the whole scan. */
  ghost predicate LastHit(tables: seq<MatchTable>, busses: Busses, i: nat, b: nat, k: nat) {
    IsHit(tables, busses, i, b, k)
    && forall i2: nat, b2: nat, k2: nat :: IsHit(tables, busses, i2, b2, k2) ==> !ScanAfter(i2, b2, k2, i, b, k)
  }

  /** With no hit, EVENT_REGISTER leaves usbdevice and card_type as they were. */
  lemma {:induction false} NoMatchKeepsSelection(tables: seq<MatchTable>, busses: Busses, ct: nat,
                                                 sel: Selection)
    requires forall i: nat, b: nat, k: nat :: !IsHit(tables, busses, i, b, k)
    ensures ScanTables(tables, busses, ct, sel) == sel
  {
    if tables != [] {
      var n := |tables| - 1;
      forall i: nat, b: nat, k: nat
        ensures !IsHit(tables[..n], busses, i, b, k)
      {
        assert !IsHit(tables, busses, i, b, k);
      }
      NoMatchKeepsSelection(tables[..n], busses, ct, sel);
      assert NoBusHit(tables[n], busses) by {
        forall b: nat, k: nat | b < |busses| && k < |busses[b]|
          ensures !DevHit(tables[n], busses[b][k])
        {
          assert !IsHit(tables, busses, n, b, k);
        }
      }
      ScanBussesNone(tables[n], busses, ct, sel);
    }
  }

  /** The last match wins: the device selected is the last hit in scan
      order, and card_type is the registering event's. */
  lemma {:induction false} LastMatchWins(tables: seq<MatchTable>, busses: Busses, ct: nat,
                                         sel: Selection, i: nat, b: nat, k: nat)
    requires LastHit(tables, busses, i, b, k)
    ensures ScanTables(tables, busses, ct, sel) == Hit(b, k, ct)
  {
    var n := |tables| - 1;
    var before := ScanTables(tables[..n], busses, ct, sel);
    if i == n {
      assert LastBusHit(tables[n], busses, b, k) by {
        forall b2: nat, k2: nat | b2 < |busses| && k2 < |busses[b2]| && After(b2, k2, b, k)
          ensures !DevHit(tables[n], busses[b2][k2])
        {
          assert ScanAfter(n, b2, k2, i, b, k);
        }
      }
      ScanBussesLast(tables[n], busses, ct, before, b, k);
    } else {
      assert NoBusHit(tables[n], busses) by {
        forall b2: nat, k2: nat | b2 < |busses| && k2 < |busses[b2]|
          ensures !DevHit(tables[n], busses[b2][k2])
        {
          assert ScanAfter(n, b2, k2, i, b, k);
        }
      }
      ScanBussesNone(tables[n], busses, ct, before);
      assert LastHit(tables[..n], busses, i, b, k) by {
        forall i2: nat, b2: nat, k2: nat | IsHit(tables[..n], busses, i2, b2, k2)
          ensures !ScanAfter(i2, b2, k2, i, b, k)
        {
          assert IsHit(tables, busses, i2, b2, k2);
        }
      }
      LastMatchWins(tables[..n], busses, ct, sel, i, b, k);
    }
  }

  lemma {:induction false} LastDevHitExists(t: MatchTable, devs: seq<Device>, k0: nat)
    requires k0 < |devs| && DevHit(t, devs[k0])
    ensures exists k: nat :: LastDevHit(t, devs, k)
  {
    var n := |devs| - 1;
    if DevHit(t, devs[n]) {
      assert LastDevHit(t, devs, n);
    } else {
      LastDevHitExists(t, devs[..n], k0);
      var k: nat :| LastDevHit(t, devs[..n], k);
      assert LastDevHit(t, devs, k);
    }
  }

  lemma {:induction false} LastBusHitExists(t: MatchTable, busses: Busses, b0: nat, k0: nat)
    requires b0 < |busses| && k0 < |busses[b0]| && DevHit(t, busses[b0][k0])
    ensures exists b: nat, k: nat :: LastBusHit(t, busses, b, k)
  {
    var n := |busses| - 1;
    if exists k: nat :: k < |busses[n]| && DevHit(t, busses[n][k]) {
      var k1: nat :| k1 < |busses[n]| && DevHit(t, busses[n][k1]);
      LastDevHitExists(t, busses[n], k1);
      var k: nat :| LastDevHit(t, busses[n], k);
      assert LastBusHit(t, busses, n, k);
    } else {
      assert busses[..n][b0] == busses[b0];
      LastBusHitExists(t, busses[..n], b0, k0);
      var b: nat, k: nat :| LastBusHit(t, busses[..n], b, k);
      assert forall b2: nat :: b2 < n ==> busses[..n][b2] == busses[b2];
      assert LastBusHit(t, busses, b, k);
    }
  }

  lemma {:induction false} LastHitExists(tables: seq<MatchTable>, busses: Busses, i0: nat, b0: nat, k0: nat)
    requires IsHit(tables, busses, i0, b0, k0)
    ensures exists i: nat, b: nat, k: nat :: LastHit(tables, busses, i, b, k)
  {
    var n := |tables| - 1;
    if !NoBusHit(tables[n], busses) {
      var b1: nat, k1: nat :| b1 < |busses| && k1 < |busses[b1]| && DevHit(tables[n], busses[b1][k1]);
      LastBusHitExists(tables[n], busses, b1, k1);
      var b: nat, k: nat :| LastBusHit(tables[n], busses, b, k);
      forall i2: nat, b2: nat, k2: nat | IsHit(tables, busses, i2, b2, k2)
        ensures !ScanAfter(i2, b2, k2, n, b, k)
      {
      }
      assert LastHit(tables, busses, n, b, k);
    } else {
      assert i0 != n;
      assert IsHit(tables[..n], busses, i0, b0, k0);
      LastHitExists(tables[..n], busses, i0, b0, k0);
      var i: nat, b: nat, k: nat :| LastHit(tables[..n], busses, i, b, k);
      forall i2: nat, b2: nat, k2: nat | IsHit(tables, busses, i2, b2, k2)
        ensures !ScanAfter(i2, b2, k2, i, b, k)
      {
        if i2 < n {
          assert IsHit(tables[..n], busses, i2, b2, k2);
        }
      }
      assert LastHit(tables, busses, i, b, k);
    }
  }

  /** A device is selected exactly when some table matches some device:
      then usbdevice is the last hit and card_type the event's. */
  lemma {:induction false} MatchSelects(tables: seq<MatchTable>, busses: Busses, ct: nat, sel: Selection,
                     i0: nat, b0: nat, k0: nat)
    requires IsHit(tables, busses, i0, b0, k0)
    ensures exists i: nat, b: nat, k: nat ::
      LastHit(tables, busses, i, b, k) && ScanTables(tables, busses, ct, sel) == Hit(b, k, ct)
  {
    LastHitExists(tables, busses, i0, b0, k0);
    var i: nat, b: nat, k: nat :| LastHit(tables, busses, i, b, k);
    LastMatchWins(tables, busses, ct, sel, i, b, k);
  }

  // ---------------------------------------------------------------------
  // EVENT_PULL
  // ---------------------------------------------------------------------

  /** The match table EVENT_PULL reports for a device: its own descriptor
      fields, and the interface fields of alternate setting 0 of interface 0
      of configuration 0. */
  function ReportedTable(d: Device): MatchTable
    requires |d.configs| > 0 && Enumerated(d)
  {
    assert d.configs[0] in d.configs;
    var alt := d.configs[0].interfaces[0].altsettings[0];
    MatchTable(d.descriptor.idVendor, d.descriptor.idProduct, d.descriptor.bDeviceClass,
               d.descriptor.bDeviceSubClass, alt.bInterfaceClass, alt.bInterfaceSubClass,
               alt.bInterfaceProtocol)
  }

  /** What EVENT_PULL needs of the selected device: it dereferences its
      first configuration, interface and alternate setting. */
  predicate Reportable(busses: Busses, sel: Selection) {
    sel.dev.Some? ==>
      && ValidRef(busses, sel.dev.value)
      && |busses[sel.dev.value.bus][sel.dev.value.index].configs| > 0
      && Enumerated(busses[sel.dev.value.bus][sel.dev.value.index])
  }

  /** EVENT_PULL: with a device selected, reports it as an attach event in
      match table 0; without one, leaves the payload alone. */
  function EventPull(e: Event, busses: Busses, sel: Selection): (e': Event)
    requires Reportable(busses, sel) && |e.matchTables| > 0
    ensures sel.dev.None? ==> e' == e
    ensures sel.dev.Some? ==>
      && e'.cardType == sel.cardType && e'.action == 1 && e'.eventId == 109 && e'.uniqueId == 110
      && e'.handle == e.handle && e'.numMatchTables == e.numMatchTables
      && |e'.matchTables| == |e.matchTables| && e'.matchTables[1..] == e.matchTables[1..]
      && e'.matchTables[0] == ReportedTable(busses[sel.dev.value.bus][sel.dev.value.index])
  {
    if sel.dev.None? then e
    else
      var d := busses[sel.dev.value.bus][sel.dev.value.index];
      e.(cardType := sel.cardType, action := 1, eventId := 109, uniqueId := 110,
         matchTables := e.matchTables[0 := ReportedTable(d)])
  }

  /** The device EVENT_PULL reports agrees with every table it hit on the
      four device fields; the interface fields come from alternate setting 0
      and can differ from the ones that matched. */
  lemma {:induction false} ReportedAgrees(t: MatchTable, d: Device)
    requires |d.configs| > 0 && Enumerated(d) && DevHit(t, d)
    ensures ReportedTable(d).vendorId == t.vendorId && ReportedTable(d).productId == t.productId
    ensures ReportedTable(d).deviceClass == t.deviceClass
    ensures ReportedTable(d).deviceSubClass == t.deviceSubClass
  {
  }

  /** The scan only ever selects a device it matched, so EVENT_PULL can
      report whatever EVENT_REGISTER selects. */
  lemma {:induction false} ScanKeepsReportable(tables: seq<MatchTable>, busses: Busses, ct: nat, sel: Selection)
    requires AllEnumerated(busses) && Reportable(busses, sel)
    ensures Reportable(busses, ScanTables(tables, busses, ct, sel))
  {
    if exists i: nat, b: nat, k: nat :: IsHit(tables, busses, i, b, k) {
      var i0: nat, b0: nat, k0: nat :| IsHit(tables, busses, i0, b0, k0);
      MatchSelects(tables, busses, ct, sel, i0, b0, k0);
      var i: nat, b: nat, k: nat :|
        LastHit(tables, busses, i, b, k) && ScanTables(tables, busses, ct, sel) == Hit(b, k, ct);
      assert busses[b] in busses && busses[b][k] in busses[b];
    } else {
      NoMatchKeepsSelection(tables, busses, ct, sel);
    }
  }
}
