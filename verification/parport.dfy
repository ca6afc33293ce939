/**
 * The parallel-port register emulator behind TRANSFER and MULTI_TRANSFER
 * (`pp_transfer`).
 *
 * A WD_TRANSFER names an I/O address, a command (PP_READ or PP_WRITE) and a
 * data byte. The emulator decodes the address against the registered base
 * addresses and forwards the access to the parport device through the ppdev
 * ioctls PPWDATA, PPRSTATUS, PPRCONTROL and PPWCONTROL. Those ioctls are an
 * abstract register file here: a read returns the register, a write sets it,
 * and whether the ioctl succeeds is an input (`ok`).
 */
module Parport {

  import opened Usb
  import opened Abi

  /** The port's registers as the ppdev ioctls see them. The emulator never
      writes `status` (the status lines are inputs of the port). */
  datatype Registers = Registers(data: Byte, status: Byte, control: Byte)

  /** dwPort, cmdTrans and Data.Byte of a WD_TRANSFER. */
  datatype WdTransfer = WdTransfer(port: nat, cmdTrans: nat, byte: Byte)

  /** The state pp_transfer reads: the globals parportfd, ppbase and ecpbase,
      its `static` last_pp_write, and the port's registers. */
  datatype Port = Port(fd: int, ppbase: nat, ecpbase: nat, lastWrite: Byte, regs: Registers)

  datatype Region = DataPort | StatusPort | ControlPort | EcpPort | Unmapped

  /** The address decoder, in the order of the if-chain: the three SPP
      registers at ppbase, then the three ECP registers at ecpbase, which
      exist only while ecpbase is nonzero. */
  function RegionOf(abi: Abi, s: Port, addr: nat): (r: Region)
    ensures r == EcpPort ==> s.ecpbase != 0
    ensures r == Unmapped <==>
      && addr != s.ppbase + abi.ppData && addr != s.ppbase + abi.ppStatus
      && addr != s.ppbase + abi.ppControl
      && (s.ecpbase == 0 || addr !in {s.ecpbase + abi.ecpCfgA, s.ecpbase + abi.ecpCfgB,
                                      s.ecpbase + abi.ecpEcr})
  {
    if addr == s.ppbase + abi.ppData then DataPort
    else if addr == s.ppbase + abi.ppStatus then StatusPort
    else if addr == s.ppbase + abi.ppControl then ControlPort
    else if addr == s.ecpbase + abi.ecpCfgA && s.ecpbase != 0 then EcpPort
    else if addr == s.ecpbase + abi.ecpCfgB && s.ecpbase != 0 then EcpPort
    else if addr == s.ecpbase + abi.ecpEcr && s.ecpbase != 0 then EcpPort
    else Unmapped
  }

  /** The accesses that reach the port through an ioctl: a data write, a
      status read, and a control read or write. */
  predicate Touches(abi: Abi, r: Region, cmd: nat) {
    || (r == DataPort && cmd == abi.ppWrite)
    || (r == StatusPort && cmd == abi.ppRead)
    || (r == ControlPort && (cmd == abi.ppRead || cmd == abi.ppWrite))
  }

  /** A command other than PP_READ and PP_WRITE on one of the SPP registers. */
  predicate Unsupported(abi: Abi, r: Region, cmd: nat) {
    r in {DataPort, StatusPort, ControlPort} && cmd != abi.ppRead && cmd != abi.ppWrite
  }

  /** The status byte a FORCE_PC3_IDENT build reports: bits 5 and 7 are
      replaced by bit 6 of the last data byte written (bit 5 set when it is
      set, bit 7 set when it is clear); the other bits are the real status. */
  function Pc3Bits(status: bv8, lastWrite: bv8): (v: bv8)
    ensures v & 0x5f == status & 0x5f
    ensures v & 0x20 != 0 <==> lastWrite & 0x40 != 0
    ensures v & 0x80 != 0 <==> lastWrite & 0x40 == 0
  {
    (status & 0x5f) | (if lastWrite & 0x40 != 0 then 0x20 else 0x80)
  }

  function Pc3Status(status: Byte, lastWrite: Byte): Byte {
    Pc3Bits(status as bv8, lastWrite as bv8) as int
  }

  /** What one pp_transfer call returns, the state it leaves, and the byte it
      writes back into Data.Byte. */
  datatype Step = Step(ret: int, port: Port, byte: Byte)

  function IoctlRet(ok: bool): int {
    if ok then 0 else -1
  }

  /** pp_transfer on state s for the record tr, where `ok` is the outcome
      of the ppdev ioctl it issues (if it issues one). */
  function TransferStep(abi: Abi, s: Port, tr: WdTransfer, ok: bool): (r: Step)
    requires abi.Wf()
    // the globals it only reads
    ensures r.port.fd == s.fd && r.port.ppbase == s.ppbase && r.port.ecpbase == s.ecpbase
    // with no port open it does nothing at all
    ensures s.fd < 0 ==> r == Step(0, s, tr.byte)
    // last_pp_write changes only on a data-register write, to the byte written
    ensures r.port.lastWrite
         == if s.fd >= 0 && RegionOf(abi, s, tr.port) == DataPort && tr.cmdTrans == abi.ppWrite
            then tr.byte else s.lastWrite
    // a write hands back the byte it was given
    ensures tr.cmdTrans == abi.ppWrite ==> r.byte == tr.byte
    // the registers and the byte change only through an ioctl that succeeds
    ensures !(s.fd >= 0 && Touches(abi, RegionOf(abi, s, tr.port), tr.cmdTrans) && ok) ==>
      r.port.regs == s.regs
    ensures !(s.fd >= 0 && Touches(abi, RegionOf(abi, s, tr.port), tr.cmdTrans)) ==>
      r.byte == tr.byte
    // -1 for an unsupported command or a failed ioctl, 0 otherwise
    ensures r.ret in {0, -1}
    ensures r.ret == -1 <==>
      s.fd >= 0 && (Unsupported(abi, RegionOf(abi, s, tr.port), tr.cmdTrans)
                    || (Touches(abi, RegionOf(abi, s, tr.port), tr.cmdTrans) && !ok))
  {
    var val := tr.byte;
    if s.fd < 0 then Step(0, s, val)
    else match RegionOf(abi, s, tr.port)
      case DataPort =>
        if tr.cmdTrans == abi.ppRead then Step(0, s, val)
        else if tr.cmdTrans == abi.ppWrite then
          var regs := if ok then s.regs.(data := val) else s.regs;
          Step(IoctlRet(ok), s.(lastWrite := val, regs := regs), val)
        else Step(-1, s, val)
      case StatusPort =>
        if tr.cmdTrans == abi.ppRead then
          var got := if ok then s.regs.status else val;
          Step(IoctlRet(ok), s, if abi.forcePc3Ident then Pc3Status(got, s.lastWrite) else got)
        else if tr.cmdTrans == abi.ppWrite then Step(0, s, val)
        else Step(-1, s, val)
      case ControlPort =>
        if tr.cmdTrans == abi.ppRead then
          Step(IoctlRet(ok), s, if ok then s.regs.control else val)
        else if tr.cmdTrans == abi.ppWrite then
          Step(IoctlRet(ok), s.(regs := if ok then s.regs.(control := val) else s.regs), val)
        else Step(-1, s, val)
      case EcpPort => Step(0, s, val)
      case Unmapped => Step(0, s, val)
  }

  /** A successful read of the status register under FORCE_PC3_IDENT reports
      the real status with bits 5 and 7 derived from the last data write; a
      successful read of a register otherwise reports the register. */
  lemma {:induction false} ReadBack(abi: Abi, s: Port, tr: WdTransfer)
    requires abi.Wf() && s.fd >= 0 && tr.cmdTrans == abi.ppRead
    ensures RegionOf(abi, s, tr.port) == StatusPort ==>
      TransferStep(abi, s, tr, true).byte
        == if abi.forcePc3Ident then Pc3Status(s.regs.status, s.lastWrite) else s.regs.status
    ensures RegionOf(abi, s, tr.port) == ControlPort ==>
      TransferStep(abi, s, tr, true).byte == s.regs.control
    ensures RegionOf(abi, s, tr.port) == DataPort ==>
      TransferStep(abi, s, tr, true) == Step(0, s, tr.byte)
  {
  }

  /** A successful write to the data or control register stores the byte. */
  lemma {:induction false} WriteThrough(abi: Abi, s: Port, tr: WdTransfer)
    requires abi.Wf() && s.fd >= 0 && tr.cmdTrans == abi.ppWrite
    ensures RegionOf(abi, s, tr.port) == DataPort ==>
      TransferStep(abi, s, tr, true).port.regs == s.regs.(data := tr.byte)
    ensures RegionOf(abi, s, tr.port) == ControlPort ==>
      TransferStep(abi, s, tr, true).port.regs == s.regs.(control := tr.byte)
  {
  }

  // ---------------------------------------------------------------------
  // MULTI_TRANSFER: the records one after another
  // ---------------------------------------------------------------------

  /** The result of running pp_transfer over the records trs in index order,
      with oks[i] the outcome of record i's ioctl: the state after the last
      one, the records as written back, and the last record's return value
      (0 for no records). */
  datatype Multi = Multi(ret: int, port: Port, trs: seq<WdTransfer>)

  function MultiSteps(abi: Abi, s: Port, trs: seq<WdTransfer>, oks: seq<bool>): (m: Multi)
    requires abi.Wf() && |oks| == |trs|
    ensures |m.trs| == |trs|
    ensures m.port.fd == s.fd && m.port.ppbase == s.ppbase && m.port.ecpbase == s.ecpbase
    ensures trs == [] ==> m == Multi(0, s, [])
  {
    if trs == [] then Multi(0, s, [])
    else
      var n := |trs| - 1;
      var before := MultiSteps(abi, s, trs[..n], oks[..n]);
      var step := TransferStep(abi, before.port, trs[n], oks[n]);
      Multi(step.ret, step.port, before.trs + [trs[n].(byte := step.byte)])
  }

  /** Running one more record extends the result by that record's step. */
  lemma {:induction false} MultiStepsNext(abi: Abi, s: Port, trs: seq<WdTransfer>, oks: seq<bool>, i: nat)
    requires abi.Wf() && |oks| == |trs| && i < |trs|
    ensures var m := MultiSteps(abi, s, trs[..i], oks[..i]);
            var step := TransferStep(abi, m.port, trs[i], oks[i]);
            MultiSteps(abi, s, trs[..i + 1], oks[..i + 1])
              == Multi(step.ret, step.port, m.trs + [trs[i].(byte := step.byte)])
  {
    assert trs[..i + 1][..i] == trs[..i];
    assert oks[..i + 1][..i] == oks[..i];
  }

  /** Record i is written back by the step it gets in the state the records
      before it leave, and only its byte changes; the call returns what the
      last record's step returns. */
  lemma {:induction false} MultiStepsSpec(abi: Abi, s: Port, trs: seq<WdTransfer>, oks: seq<bool>, i: nat)
    requires abi.Wf() && |oks| == |trs| && i < |trs|
    ensures MultiSteps(abi, s, trs, oks).trs[i]
         == trs[i].(byte := TransferStep(abi, MultiSteps(abi, s, trs[..i], oks[..i]).port,
                                         trs[i], oks[i]).byte)
    ensures i == |trs| - 1 ==>
      MultiSteps(abi, s, trs, oks).ret
        == TransferStep(abi, MultiSteps(abi, s, trs[..i], oks[..i]).port, trs[i], oks[i]).ret
  {
    var n := |trs| - 1;
    if i < n {
      MultiStepsSpec(abi, s, trs[..n], oks[..n], i);
      assert trs[..n][..i] == trs[..i];
      assert oks[..n][..i] == oks[..i];
    }
  }

  /** With no port open, MULTI_TRANSFER changes nothing and returns 0. */
  lemma {:induction false} MultiClosedPort(abi: Abi, s: Port, trs: seq<WdTransfer>, oks: seq<bool>)
    requires abi.Wf() && |oks| == |trs| && s.fd < 0
    ensures MultiSteps(abi, s, trs, oks) == Multi(0, s, trs)
  {
    if trs != [] {
      var n := |trs| - 1;
      MultiClosedPort(abi, s, trs[..n], oks[..n]);
      assert trs[..n] + [trs[n]] == trs;
    }
  }
}
