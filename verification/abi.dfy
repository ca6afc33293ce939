/**
 * The vendor ioctl ABI that usb-driver.c emulates.
 *
 * The numeric values of the opcodes, register offsets, direction codes and
 * record sizes live in usb-driver.h, which is not part of this model; they
 * are the fields of an `Abi` value that every operation takes as a parameter.
 * `Wf` states only what the emulator's logic relies on.
 */
module Abi {

  import opened Usb

  /** The operations the dispatcher knows, after the legacy and the current
      opcode numbers have been folded together by the opcode table. */
  datatype Op =
    | Version | License
    | CardRegister | CardUnregister
    | UsbTransfer | UsbSetInterface | UsbGetDeviceData
    | EventRegister | EventUnregister | EventPull
    | Transfer | MultiTransfer
    | IntEnable | IntDisable | IntWait

  datatype Abi = Abi(
    magic: nat,
    /** opcode number (after masking) -> operation; CARD_REGISTER_OLD and
        CARD_REGISTER, say, are two keys with the same value */
    opcodes: map<bv32, Op>,
    // parallel-port register offsets from ppbase and ecpbase
    ppData: nat, ppStatus: nat, ppControl: nat,
    ecpCfgA: nat, ecpCfgB: nat, ecpEcr: nat,
    // WD_TRANSFER commands
    ppRead: nat, ppWrite: nat,
    // WDU_DIR_* and PIPE_TYPE_CONTROL
    dirIn: nat, dirOut: nat, dirInOut: nat,
    pipeTypeControl: nat,
    /** WDU_GET_MAX_PACKET_SIZE applied to an endpoint's wMaxPacketSize */
    maxPacketSize: Word -> nat,
    /** whether the library is built with FORCE_PC3_IDENT */
    forcePc3Ident: bool,
    // sizeof of the records the serializer writes
    deviceInfoSize: nat, deviceDescriptorSize: nat, configSize: nat,
    interfaceSize: nat, altSettingSize: nat, endpointSize: nat, pipeInfoSize: nat,
    /** sizeof(WD_TRANSFER) */
    transferSize: nat)
  {
    predicate Wf() {
      && ppData != ppStatus && ppStatus != ppControl && ppData != ppControl
      && ppRead != ppWrite
      && dirIn != dirOut && dirIn != dirInOut && dirOut != dirInOut
      && deviceInfoSize > 0 && configSize > 0 && interfaceSize > 0
      && altSettingSize > 0 && endpointSize > 0 && pipeInfoSize > 0
      && transferSize > 0
    }
  }

  /** The request number with its two high (direction) bits cleared, as
      `request & ~(0xc0000000)` on a 32-bit unsigned int. */
  function RequestCode(request: bv32): (code: bv32)
    ensures code | (request & 0xc000_0000) == request
    ensures code < 0x4000_0000
    ensures request < 0x4000_0000 ==> code == request
  {
    request & 0x3fff_ffff
  }

  /** The operation a request selects; None for an opcode the dispatcher
      does not handle (the `default:` branch). */
  function Decode(abi: Abi, request: bv32): (op: Option<Op>)
    ensures op.Some? <==> RequestCode(request) in abi.opcodes
    ensures op.Some? ==> op.value == abi.opcodes[RequestCode(request)]
  {
    var code := RequestCode(request);
    if code in abi.opcodes then Some(abi.opcodes[code]) else None
  }

  /** Decoding ignores the two reserved high bits of the request. */
  lemma {:induction false} DecodeIgnoresHighBits(abi: Abi, request: bv32, hi: bv32)
    requires hi < 4
    ensures Decode(abi, (hi << 30) | request) == Decode(abi, request)
  {
    assert RequestCode((hi << 30) | request) == RequestCode(request);
  }
}
