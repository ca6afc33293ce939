/**
 * The USB descriptor tree as the USB stack enumerates it (Device ->
 * Configuration[] -> Interface[] -> AlternateSetting[] -> Endpoint[]) and the
 * 8-byte control setup packet of section 9.3 (Table 9-2) of the USB 2.0
 * specification.
 *
 * The descriptor counts the C code loops over (bNumConfigurations,
 * bNumInterfaces, num_altsetting, bNumEndpoints) are the lengths of the
 * sequences here.
 */
module Usb {

  datatype Option<+T> = None | Some(value: T)

  /** An unsigned 8-bit field. */
  type Byte = b: int | 0 <= b < 0x100
  /** An unsigned 16-bit field. */
  type Word = w: int | 0 <= w < 0x1_0000

  /** Endpoint descriptor, section 9.6.6 of the USB 2.0 specification. */
  datatype Endpoint = Endpoint(
    bLength: Byte, bDescriptorType: Byte, bEndpointAddress: Byte,
    bmAttributes: Byte, wMaxPacketSize: Word, bInterval: Byte)

  /** One alternate setting of an interface (its interface descriptor). */
  datatype AltSetting = AltSetting(
    bLength: Byte, bDescriptorType: Byte, bInterfaceNumber: Byte,
    bAlternateSetting: Byte, bInterfaceClass: Byte, bInterfaceSubClass: Byte,
    bInterfaceProtocol: Byte, iInterface: Byte, endpoints: seq<Endpoint>)

  datatype Interface = Interface(altsettings: seq<AltSetting>)

  datatype Config = Config(
    bLength: Byte, bDescriptorType: Byte, wTotalLength: Word,
    bConfigurationValue: Byte, iConfiguration: Byte, bmAttributes: Byte,
    MaxPower: Byte, interfaces: seq<Interface>)

  datatype DeviceDescriptor = DeviceDescriptor(
    bDescriptorType: Byte, bcdUSB: Word, bDeviceClass: Byte,
    bDeviceSubClass: Byte, bDeviceProtocol: Byte, bMaxPacketSize0: Byte,
    idVendor: Word, idProduct: Word, bcdDevice: Word, iManufacturer: Byte,
    iProduct: Byte, iSerialNumber: Byte)

  datatype Device = Device(descriptor: DeviceDescriptor, configs: seq<Config>)

  /** The enumerated busses, each a list of devices, in the USB stack's order. */
  type Busses = seq<seq<Device>>

  /** What the USB stack guarantees of an enumerated device and what the
      matcher and EVENT_PULL dereference without checking: every
      configuration has an interface array and every interface has its
      alternate setting 0. */
  predicate Enumerated(d: Device) {
    forall c :: c in d.configs ==>
      |c.interfaces| > 0 && forall i :: i in c.interfaces ==> |i.altsettings| > 0
  }

  predicate AllEnumerated(busses: Busses) {
    forall b, d :: b in busses && d in b ==> Enumerated(d)
  }

  /** The decoded fields of a control request (bmRequestType, bRequest,
      wValue, wIndex, wLength). */
  datatype ControlRequest = ControlRequest(
    requestType: Byte, request: Byte, value: Word, index: Word, length: Word)

  /** The little-endian 16-bit field at bytes lo and lo+1. */
  function Le16(lo: Byte, hi: Byte): (w: Word)
    ensures w % 0x100 == lo && w / 0x100 == hi
  {
    lo as int + 0x100 * (hi as int)
  }

  function DecodeSetup(p: seq<Byte>): (r: ControlRequest)
    requires |p| == 8
    ensures r.requestType == p[0] && r.request == p[1]
    ensures r.value as int == p[2] as int + 0x100 * (p[3] as int)
    ensures r.index as int == p[4] as int + 0x100 * (p[5] as int)
    ensures r.length as int == p[6] as int + 0x100 * (p[7] as int)
  {
    ControlRequest(p[0], p[1], Le16(p[2], p[3]), Le16(p[4], p[5]), Le16(p[6], p[7]))
  }

  /** The setup packet a host would send for a request: the inverse of
      DecodeSetup. */
  function EncodeSetup(r: ControlRequest): (p: seq<Byte>)
    ensures |p| == 8
  {
    [r.requestType, r.request,
     r.value % 0x100, r.value / 0x100,
     r.index % 0x100, r.index / 0x100,
     r.length % 0x100, r.length / 0x100]
  }

  lemma {:induction false} DecodeEncode(r: ControlRequest)
    ensures DecodeSetup(EncodeSetup(r)) == r
  {
  }

  lemma {:induction false} EncodeDecode(p: seq<Byte>)
    requires |p| == 8
    ensures EncodeSetup(DecodeSetup(p)) == p
  {
  }

  /** A worked instance of DecodeSetup, kept as documentation: a standard
      GET_DESCRIPTOR(DEVICE) request for 18 bytes. The descriptor type 0x01
      sits in the high byte of wValue because the packet is little-endian. */
  lemma {:induction false} GetDeviceDescriptorExample()
    ensures DecodeSetup([0x80, 0x06, 0x00, 0x01, 0x00, 0x00, 0x12, 0x00])
         == ControlRequest(0x80, 0x06, 0x0100, 0x0000, 18)
  {
  }
}
