/**
 * The ioctl handler (`do_wdioctl`) and the driver's global state.
 *
 * A request first has its header's magic checked and its opcode decoded
 * (`RouteOf`); each opcode then has its handler. Handlers that change the
 * globals are methods of `Driver`; handlers that only rewrite the request's
 * payload are functions (EVENT_PULL is `Events.EventPull`). The libusb and
 * ppdev calls a handler makes are inputs: their return values are
 * parameters, and what they were asked to do is returned.
 */
module Dispatch {

  import opened Usb
  import opened Abi
  import opened Serializer
  import opened Layout
  import opened Parport
  import opened Events
  import opened Interrupts
  import opened BaseAddr

  /** An event handle is an unsigned long (64 bits wide). */
  const ULONG_MODULUS: nat := 0x1_0000_0000_0000_0000

  // ---------------------------------------------------------------------
  // Routing
  // ---------------------------------------------------------------------

  datatype Route =
    | Forward        // wrong magic: handed to the real ioctl unchanged
    | Unsupported    // `default:`: returns 0 and changes nothing
    | Handle(op: Op)

  function RouteOf(abi: Abi, magic: nat, request: bv32): (r: Route)
    ensures r == Forward <==> magic != abi.magic
    ensures magic == abi.magic ==> (r == Unsupported <==> RequestCode(request) !in abi.opcodes)
    ensures r.Handle? ==> r.op == abi.opcodes[RequestCode(request)]
  {
    if magic != abi.magic then Forward
    else match Decode(abi, request)
      case None => Unsupported
      case Some(op) => Handle(op)
  }

  /** The two high bits of a request never change its route. */
  lemma {:induction false} RouteIgnoresHighBits(abi: Abi, magic: nat, request: bv32, hi: bv32)
    requires hi < 4
    ensures RouteOf(abi, magic, (hi << 30) | request) == RouteOf(abi, magic, request)
  {
    DecodeIgnoresHighBits(abi, request, hi);
  }

  // ---------------------------------------------------------------------
  // USB_TRANSFER
  // ---------------------------------------------------------------------

  /** The fields of the usb_transfer payload the handler reads or writes. */
  datatype UsbTransfer = UsbTransfer(
    pipeNum: nat, fRead: bool, setup: seq<Byte>, bufferSize: nat, timeout: nat,
    bytesTransferred: nat)

  /** The libusb call a transfer makes. */
  datatype UsbCall =
    | ControlMsg(req: ControlRequest, timeout: nat)
    | BulkRead(pipe: nat, size: nat, timeout: nat)
    | BulkWrite(pipe: nat, size: nat, timeout: nat)

  /** Pipe 0 is the control pipe: the request comes from the setup packet
      (its wLength is the size); any other pipe is a bulk read or write of
      the whole buffer. */
  function TransferCall(ut: UsbTransfer): (c: UsbCall)
    requires |ut.setup| == 8
    ensures c.ControlMsg? <==> ut.pipeNum == 0
    ensures c.ControlMsg? ==> EncodeSetup(c.req) == ut.setup && c.timeout == ut.timeout
    ensures c.BulkRead? <==> ut.pipeNum != 0 && ut.fRead
    ensures !c.ControlMsg? ==> c.pipe == ut.pipeNum && c.size == ut.bufferSize && c.timeout == ut.timeout
  {
    if ut.pipeNum == 0 then
      EncodeDecode(ut.setup);
      ControlMsg(DecodeSetup(ut.setup), ut.timeout)
    else if ut.fRead then BulkRead(ut.pipeNum, ut.bufferSize, ut.timeout)
    else BulkWrite(ut.pipeNum, ut.bufferSize, ut.timeout)
  }

  /** What USB_TRANSFER returns and leaves in the payload when the libusb
      call returns `result`: an error is passed through with the payload
      untouched; a byte count is stored and the call succeeds. */
  function TransferResult(ut: UsbTransfer, result: int): (r: (int, UsbTransfer))
    ensures r.0 <= 0 && (r.0 < 0 <==> result < 0)
    ensures r.0 < 0 ==> r.0 == result && r.1 == ut
    ensures r.0 == 0 ==> r.1 == ut.(bytesTransferred := result)
  {
    if result < 0 then (result, ut) else (0, ut.(bytesTransferred := result))
  }

  // ---------------------------------------------------------------------
  // The driver's globals
  // ---------------------------------------------------------------------

  /** The enumerated busses, usbdevice and card_type, whether
      usb_devhandle is open, and usbinterface. */
  datatype UsbState = UsbState(busses: Busses, sel: Selection, devOpen: bool, usbinterface: int)

  function SelectedDevice(u: UsbState): Device
    requires u.sel.dev.Some? && ValidRef(u.busses, u.sel.dev.value)
  {
    u.busses[u.sel.dev.value.bus][u.sel.dev.value.index]
  }

  class Driver {
    const abi: Abi
    /** parportfd, ppbase, ecpbase, pp_transfer's last_pp_write, and the port */
    var port: Port
    var usb: UsbState
    /** ints_enabled and the int_wait mutex */
    var ints: IntState

    ghost predicate Valid()
      reads this
    {
      abi.Wf() && AllEnumerated(usb.busses) && Reportable(usb.busses, usb.sel)
    }

    /** The state when the library is loaded: no port open, no device
        selected, interrupts off, the mutex free. */
    constructor(abi: Abi, busses: Busses, regs: Registers)
      requires abi.Wf() && AllEnumerated(busses)
      ensures Valid()
      ensures this.abi == abi
      ensures port == Port(-1, 0, 0, 0, regs)
      ensures usb == UsbState(busses, Selection(None, 0), false, -1)
      ensures ints == IntState(false, false)
    {
      this.abi := abi;
      port := Port(-1, 0, 0, 0, regs);
      usb := UsbState(busses, Selection(None, 0), false, -1);
      ints := IntState(false, false);
    }

    // -------------------------------------------------------------------
    // CARD_REGISTER / CARD_UNREGISTER
    // -------------------------------------------------------------------

    /** CARD_REGISTER with the I/O items' addresses `addrs` (Item[0] first).
        `openFd` is what open() of the parport device returns, `claimOk` and
        `negotOk` whether PPCLAIM and PPNEGOT (compatibility mode) succeed.
        Returns the call's result, the payload's new hCard, and the device
        it opened, if it opened one. */
    method CardRegister(dwItems: nat, addrs: seq<nat>, hCard: nat, openFd: int,
                        claimOk: bool, negotOk: bool)
      returns (ret: int, hCard': nat, opensPath: Option<string>)
      requires |addrs| > 0 && (dwItems > 1 ==> |addrs| > 1)
      modifies this
      ensures ret == 0
      // the port is opened only if none is open yet, at the path for Item[0]
      ensures opensPath == if old(port).fd < 0 then Some(ParportPath(addrs[0])) else None
      ensures port.fd == if old(port).fd < 0 then openFd else old(port).fd
      // open failed: nothing registered but the base address
      ensures port.fd < 0 ==>
        hCard' == hCard && port.ecpbase == old(port).ecpbase && port.ppbase == addrs[0]
      // PPCLAIM failed: nothing else changes
      ensures port.fd >= 0 && !claimOk ==>
        hCard' == hCard && port.ecpbase == old(port).ecpbase && port.ppbase == old(port).ppbase
      // PPNEGOT failed: only the ECP base is cleared
      ensures port.fd >= 0 && claimOk && !negotOk ==>
        hCard' == hCard && port.ecpbase == 0 && port.ppbase == old(port).ppbase
      // success: the handle is the descriptor; ECP only for a nonzero Item[1]
      ensures port.fd >= 0 && claimOk && negotOk ==>
        && hCard' == port.fd && port.ppbase == addrs[0]
        && port.ecpbase == (if dwItems > 1 && addrs[1] != 0 then addrs[1] else 0)
      ensures port.lastWrite == old(port).lastWrite && port.regs == old(port).regs
      ensures usb == old(usb) && ints == old(ints)
    {
      ret := 0;
      hCard' := hCard;
      opensPath := None;
      if port.fd < 0 {
        opensPath := Some(ParportPath(addrs[0]));
        port := port.(fd := openFd);
      }
      if port.fd >= 0 {
        if !claimOk {
          return;
        }
        port := port.(ecpbase := 0);
        if !negotOk {
          return;
        }
        if dwItems > 1 && addrs[1] != 0 {
          port := port.(ecpbase := addrs[1]);
        }
        hCard' := port.fd;
      }
      port := port.(ppbase := addrs[0]);
    }

    /** CARD_UNREGISTER: closes the port only when hCard is the open one. */
    method CardUnregister(hCard: nat) returns (ret: int)
      modifies this
      ensures ret == 0
      ensures port == if old(port).fd >= 0 && old(port).fd == hCard
                      then old(port).(fd := -1) else old(port)
      ensures usb == old(usb) && ints == old(ints)
    {
      ret := 0;
      if port.fd == hCard && port.fd >= 0 {
        port := port.(fd := -1);
      }
    }

    // -------------------------------------------------------------------
    // USB_SET_INTERFACE and USB_GET_DEVICE_DATA
    // -------------------------------------------------------------------

    /** USB_SET_INTERFACE: with a device selected, opens it if needed and
        claims the interface number of alternate setting `alt` of interface
        `ifnum` of configuration 0 (`claimRet` is usb_claim_interface's
        result); on success records that number and selects the alternate
        setting (`altRet` is usb_set_altinterface's result). */
    method SetInterface(ifnum: nat, alt: nat, claimRet: int, altRet: int)
      returns (ret: int, claimed: Option<Byte>)
      requires Valid()
      requires usb.sel.dev.Some? ==>
        && ifnum < |SelectedDevice(usb).configs[0].interfaces|
        && alt < |SelectedDevice(usb).configs[0].interfaces[ifnum].altsettings|
      modifies this
      ensures Valid()
      ensures old(usb).sel.dev.None? ==> ret == 0 && claimed == None && usb == old(usb)
      ensures old(usb).sel.dev.Some? ==>
        var number := SelectedDevice(old(usb)).configs[0].interfaces[ifnum].altsettings[alt]
                      .bInterfaceNumber;
        && claimed == Some(number)
        && ret == (if claimRet != 0 then claimRet else altRet)
        && usb == old(usb).(devOpen := true,
                            usbinterface := if claimRet == 0 then number else old(usb).usbinterface)
      ensures port == old(port) && ints == old(ints)
    {
      ret := 0;
      claimed := None;
      if usb.sel.dev.Some? {
        if !usb.devOpen {
          usb := usb.(devOpen := true);
        }
        var number := SelectedDevice(usb).configs[0].interfaces[ifnum].altsettings[alt]
                      .bInterfaceNumber;
        claimed := Some(number);
        ret := claimRet;
        if ret == 0 {
          usb := usb.(usbinterface := number);
          ret := altRet;
        }
      }
    }

    /** USB_GET_DEVICE_DATA: asked with dwBytes == 0, reports the size of
        the selected device's description (and leaves 0 with no device);
        otherwise writes the description into the caller's buffer. */
    method GetDeviceData(dwBytes: nat) returns (dwBytes': nat, written: Option<seq<Record>>)
      requires Valid()
      requires dwBytes != 0 ==> usb.sel.dev.Some?
      ensures dwBytes == 0 ==> written == None
      ensures dwBytes == 0 ==>
        dwBytes' == if usb.sel.dev.Some? then DeviceSize(abi, SelectedDevice(usb)) else 0
      ensures dwBytes != 0 ==>
        dwBytes' == dwBytes && written == Some(DeviceRecords(abi, SelectedDevice(usb)))
      // the buffer written fills exactly the size the first call reported
      ensures written.Some? ==>
        RecordsSize(abi, written.value) == DeviceSize(abi, SelectedDevice(usb))
    {
      written := None;
      dwBytes' := dwBytes;
      if dwBytes == 0 {
        if usb.sel.dev.Some? {
          dwBytes' := SizePass(abi, SelectedDevice(usb));
        }
      } else {
        var buf, len := FillPass(abi, SelectedDevice(usb));
        DeviceRecordsSize(abi, SelectedDevice(usb));
        written := Some(buf);
      }
    }

    // -------------------------------------------------------------------
    // EVENT_REGISTER
    // -------------------------------------------------------------------

    /** EVENT_REGISTER: scans the event's match tables against the busses,
        selecting the last device that matches, and increments the handle. */
    method EventRegister(e: Event) returns (e': Event)
      requires Valid() && e.numMatchTables <= |e.matchTables|
      modifies this
      ensures Valid()
      ensures usb == old(usb).(sel := ScanTables(e.matchTables[..e.numMatchTables], old(usb).busses,
                                                 e.cardType, old(usb).sel))
      ensures e' == e.(handle := (e.handle + 1) % ULONG_MODULUS)
      ensures port == old(port) && ints == old(ints)
    {
      var sel := Scan(e.matchTables[..e.numMatchTables], usb.busses, e.cardType, usb.sel);
      ScanKeepsReportable(e.matchTables[..e.numMatchTables], usb.busses, e.cardType, usb.sel);
      usb := usb.(sel := sel);
      e' := e.(handle := (e.handle + 1) % ULONG_MODULUS);
    }

    // -------------------------------------------------------------------
    // TRANSFER and MULTI_TRANSFER
    // -------------------------------------------------------------------

    /** pp_transfer on record i of the payload; `ok` is the outcome of the
        ppdev ioctl it issues, if any. */
    method PpTransfer(tr: array<WdTransfer>, i: nat, ok: bool) returns (ret: int)
      requires Valid() && i < tr.Length
      modifies this, tr
      ensures Valid()
      ensures var step := TransferStep(abi, old(port), old(tr[i]), ok);
              && ret == step.ret && port == step.port
              && tr[..] == old(tr[..])[i := old(tr[i]).(byte := step.byte)]
      ensures usb == old(usb) && ints == old(ints)
    {
      ret := 0;
      if port.fd < 0 {
        assert tr[..] == old(tr[..])[i := old(tr[i]).(byte := old(tr[i]).byte)];
        return;
      }
      var val := tr[i].byte;
      var cmd := tr[i].cmdTrans;
      match RegionOf(abi, port, tr[i].port) {
        case DataPort =>
          if cmd == abi.ppRead {
            ret := 0;
          } else if cmd == abi.ppWrite {
            ret := IoctlRet(ok);
            if ok {
              port := port.(regs := port.regs.(data := val));
            }
            port := port.(lastWrite := val);
          } else {
            ret := -1;
          }
        case StatusPort =>
          if cmd == abi.ppRead {
            ret := IoctlRet(ok);
            if ok {
              val := port.regs.status;
            }
            if abi.forcePc3Ident {
              val := Pc3Status(val, port.lastWrite);
            }
          } else if cmd == abi.ppWrite {
            ret := 0;
          } else {
            ret := -1;
          }
        case ControlPort =>
          if cmd == abi.ppRead {
            ret := IoctlRet(ok);
            if ok {
              val := port.regs.control;
            }
          } else if cmd == abi.ppWrite {
            ret := IoctlRet(ok);
            if ok {
              port := port.(regs := port.regs.(control := val));
            }
          } else {
            ret := -1;
          }
        case EcpPort =>
          ret := 0;
        case Unmapped =>
          ret := 0;
      }
      tr[i] := tr[i].(byte := val);
    }

    /** TRANSFER: one record. */
    method Transfer(tr: array<WdTransfer>, ok: bool) returns (ret: int)
      requires Valid() && tr.Length > 0
      modifies this, tr
      ensures Valid()
      ensures var step := TransferStep(abi, old(port), old(tr[0]), ok);
              && ret == step.ret && port == step.port
              && tr[..] == old(tr[..])[0 := old(tr[0]).(byte := step.byte)]
      ensures usb == old(usb) && ints == old(ints)
    {
      ret := PpTransfer(tr, 0, ok);
    }

    /** MULTI_TRANSFER: the payload's size / sizeof(WD_TRANSFER) records, in
        index order; returns the last record's result. */
    method MultiTransfer(tr: array<WdTransfer>, size: nat, oks: seq<bool>) returns (ret: int)
      requires Valid() && size / abi.transferSize <= tr.Length
      requires |oks| == size / abi.transferSize
      modifies this, tr
      ensures Valid()
      ensures var num := size / abi.transferSize;
              var m := MultiSteps(abi, old(port), old(tr[..])[..num], oks);
              && ret == m.ret && port == m.port
              && tr[..num] == m.trs && tr[num..] == old(tr[..])[num..]
      ensures usb == old(usb) && ints == old(ints)
    {
      var num := size / abi.transferSize;
      ghost var s0 := port;
      ghost var all0 := tr[..];
      ghost var trs0 := tr[..num];
      ret := 0;
      var i := 0;
      while i < num
        invariant 0 <= i <= num
        invariant Valid() && usb == old(usb) && ints == old(ints)
        invariant var m := MultiSteps(abi, s0, trs0[..i], oks[..i]);
                  ret == m.ret && port == m.port && tr[..i] == m.trs
        invariant tr[i..] == all0[i..]
      {
        assert tr[i] == trs0[i];
        ghost var prev := tr[..];
        ret := PpTransfer(tr, i, oks[i]);
        MultiStepsNext(abi, s0, trs0, oks, i);
        assert tr[..i + 1] == prev[..i] + [tr[i]];
        assert tr[i + 1..] == prev[i + 1..];
        i := i + 1;
      }
      assert oks[..i] == oks && trs0[..i] == trs0;
    }

    // -------------------------------------------------------------------
    // INT_ENABLE, INT_DISABLE, INT_WAIT
    // -------------------------------------------------------------------

    method IntEnable(it: Interrupt) returns (it': Interrupt)
      modifies this
      ensures (ints, it') == Enable(old(ints), it)
      ensures port == old(port) && usb == old(usb)
    {
      it' := it.(enableOk := 1, stopped := 0);
      ints := ints.(enabled := true);
      var (_, held) := TryLock(ints.gateHeld);
      ints := ints.(gateHeld := held);
    }

    method IntDisable(it: Interrupt) returns (it': Interrupt)
      modifies this
      ensures (ints, it') == Disable(old(ints), it)
      ensures port == old(port) && usb == old(usb)
    {
      it' := it.(counter := 0, stopped := 1);
      ints := ints.(enabled := false);
      var (busy, held) := TryLock(ints.gateHeld);
      ints := ints.(gateHeld := held);
      if busy {
        ints := ints.(gateHeld := false);
      }
    }

    method IntWait(it: Interrupt) returns (outcome: WaitOutcome, it': Interrupt)
      ensures (outcome, it') == Wait(usb.sel.dev.Some?, ints, it)
    {
      it' := it;
      outcome := Returned;
      if usb.sel.dev.Some? && it.counter == 0 {
        it' := it.(counter := 1);
      } else if ints.gateHeld {
        outcome := Blocked;
      }
    }
  }
}
