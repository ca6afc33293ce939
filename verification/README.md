# xilinx-usb-driver: a Dafny model of the WinDriver emulator

`libusb-driver.so` is loaded with `LD_PRELOAD` in front of Xilinx's
programming tools. It intercepts their `ioctl` calls to the WinDriver
kernel driver (`/dev/windrvr6`) and answers them in user space. USB
requests go to libusb, and parallel-port register accesses go to the
Linux `ppdev` interface. This project models the emulator core in
`usb-driver.c` as built with `NO_WINDRVR`, where the emulator answers
every request itself:

- **`do_wdioctl`.** The request dispatcher and its handlers. The
  handlers that update the library's globals are the methods of
  `Dispatch.Driver`, a class whose fields are those globals:
  - `parportfd`, `ppbase`, `ecpbase`;
  - `usbdevice`, `card_type`, `usb_devhandle`, `usbinterface`;
  - `ints_enabled` and the `int_wait` mutex.
- **`usb_deviceinfo`.** The two-pass serializer behind
  `USB_GET_DEVICE_DATA`. It has a size pass (`Serializer.SizePass`) and a
  fill pass (`Serializer.FillPass` and its `Fill*` helpers). The fill
  pass builds the `WDU_DEVICE` tree of records in the caller's buffer,
  with byte offsets in place of pointers.
- **`pp_transfer`.** The parallel-port register emulator behind
  `TRANSFER` and `MULTI_TRANSFER`. It is specified by
  `Parport.TransferStep`.
- **The `EVENT_REGISTER` matcher and `EVENT_PULL`** (module `Events`).
- **`INT_ENABLE`, `INT_DISABLE` and `INT_WAIT`** (module `Interrupts`).
- **The strings that tie a parport to a base address** (module
  `BaseAddr`). These are the device path `CARD_REGISTER` opens and the
  `base-addr` line that the `fgets` interposer returns.

The modules are `Usb` (libusb's device tree and the control setup
packet), `Abi`, `Serializer`, `Layout`, `Placement`, `Parport`, `Events`,
`Interrupts`, `BaseAddr` and `Dispatch`. The numeric constants of the
WinDriver ABI live in `usb-driver.h`, which is not part of this model:
- opcodes, register offsets and `PP_READ`/`PP_WRITE`;
- `WDU_DIR_*` and `PIPE_TYPE_CONTROL`;
- `WDU_GET_MAX_PACKET_SIZE`;
- the `sizeof` of every record.

These constants are the fields of an `Abi.Abi` value, and every
operation takes one. `Abi.Wf` states only what the logic relies on:
distinct register offsets, distinct commands and directions, and
positive record sizes.

Three behaviours of the code are easy to misread:

- **`CARD_REGISTER` never clears `hCard`.** In this build `ret` is
  always 0, so `if (ret < 0) cr->hCard = 0` cannot fire. A failed open,
  `PPCLAIM` or `PPNEGOT` leaves `hCard` as the caller passed it
  (`Dispatch.Driver.CardRegister`).
- **`EVENT_REGISTER` records the last matching device.** The loops have
  no early exit, so the last hit in table, bus, device order wins
  (`Events.LastMatchWins`).
- **`INT_DISABLE` can leave the mutex held.** It calls
  `pthread_mutex_trylock` and then `pthread_mutex_unlock` only when the
  trylock returns `EBUSY`. On a free mutex the trylock takes it and nothing
  releases it (`Interrupts.Disable`, `Interrupts.DisableTwiceHoldsGate`).

## Model

| member | source | states |
|---|---|---|
| Usb.DecodeSetup | usb-driver.c:467-473 | bmRequestType and bRequest are setup bytes 0 and 1; wValue, wIndex and wLength are the little-endian 16-bit fields at bytes 2, 4 and 6 |
| Usb.DecodeEncode | usb-driver.c:467-473 | decoding the setup packet of any control request gives that request back |
| Usb.EncodeDecode | usb-driver.c:467-473 | every 8-byte setup packet is the encoding of its decoding, so decoding loses nothing |
| Usb.GetDeviceDescriptorExample | usb-driver.c:467-473 | a GET_DESCRIPTOR(DEVICE) packet decodes to type 0x80, request 6, value 0x0100, index 0, length 18 |
| Abi.RequestCode | usb-driver.c:351 | the code is below 2^30, equals the request when the two high bits are clear, and restoring the request's two high bits gives back the request: only those two bits are dropped |
| Abi.Decode | usb-driver.c:351-352 | an operation is found exactly when the masked code is in the opcode table, and it is that entry; otherwise the `default:` branch (lines 883-888) applies |
| Abi.DecodeIgnoresHighBits | usb-driver.c:351 | setting the two direction bits of a request never changes the operation it decodes to |
| Dispatch.RouteOf | usb-driver.c:346-351 | a wrong magic is forwarded to the real ioctl; with the right magic, an unknown code is unsupported and a known one is handled by its table entry |
| Dispatch.RouteIgnoresHighBits | usb-driver.c:351 | the two high request bits never change the route |
| Dispatch.TransferCall | usb-driver.c:467-483 | pipe 0 issues a control message whose request re-encodes to the setup packet, with the caller's timeout; other pipes issue a bulk read exactly when fRead, on that pipe, with dwBufferSize and the timeout |
| Dispatch.TransferResult | usb-driver.c:485-490 | a negative libusb result is returned and the payload is untouched; otherwise the call returns 0 and dwBytesTransferred holds the count |
| Dispatch.Driver.constructor | usb-driver.c:51-64 | at load no port is open, ppbase and ecpbase are 0, no device is selected, usbinterface is -1, interrupts are off and the mutex is free |
| Dispatch.Driver.CardRegister | usb-driver.c:363-443 | opens /dev/parportN for Item[0] only when no port is open; on a failed PPCLAIM nothing else changes; on a failed PPNEGOT only ecpbase is cleared; on success hCard is the descriptor, ppbase is Item[0] and ecpbase is Item[1] when given and nonzero; a failed open still records ppbase; the result is always 0 |
| Dispatch.Driver.CardUnregister | usb-driver.c:790-812 | closes the port exactly when hCard is the open descriptor; nothing else changes; the result is 0 |
| Dispatch.Driver.SetInterface | usb-driver.c:548-585 | with no device selected nothing happens; otherwise the device is open afterwards, the claimed interface is alternate setting alt's bInterfaceNumber in configuration 0, usbinterface takes it only when the claim succeeds, and the result is the claim's error or else usb_set_altinterface's result |
| Dispatch.Driver.GetDeviceData | usb-driver.c:587-607 | with dwBytes 0 it reports the size of the selected device's description (0 with no device); otherwise it writes the device's records, which occupy exactly that many bytes |
| Dispatch.Driver.EventRegister | usb-driver.c:609-700 | usbdevice and card_type become the selection of the scan over the first dwNumMatchTables tables; the handle is incremented modulo 2^64; the port and interrupt state are untouched |
| Dispatch.Driver.PpTransfer | usb-driver.c:241-339 | the result and the new port state are those of TransferStep, and only record i's Data.Byte changes, to the step's byte |
| Dispatch.Driver.Transfer | usb-driver.c:702-721 | TRANSFER is one pp_transfer on the first record |
| Dispatch.Driver.MultiTransfer | usb-driver.c:723-748 | the first size / sizeof(WD_TRANSFER) records are run in index order; records, port state and result are those of MultiSteps, and the records after them are untouched |
| Dispatch.Driver.IntEnable | usb-driver.c:504-521 | the interrupt state and payload become those of Interrupts.Enable; the port and USB state are untouched |
| Dispatch.Driver.IntDisable | usb-driver.c:523-546 | the interrupt state and payload become those of Interrupts.Disable; the port and USB state are untouched |
| Dispatch.Driver.IntWait | usb-driver.c:757-788 | the outcome and payload are those of Interrupts.Wait for the current selection and gate |
| Serializer.PipeOfSpec | usb-driver.c:213-230 | a pipe's number is the endpoint address, its type the low two attribute bits, its interval bInterval, and its maximum packet size WDU_GET_MAX_PACKET_SIZE of wMaxPacketSize; the direction is in-out exactly for control pipes, else in exactly when address bit 7 is set and out exactly when it is clear |
| Serializer.TransferType | usb-driver.c:219 | the transfer type is below 4 |
| Serializer.Pipe0 | usb-driver.c:106-110 | pipe 0 has number 0, type 0, interval 0, direction in-out and bMaxPacketSize0 as its maximum packet size |
| Serializer.TimesIsProduct | usb-driver.c:232 | the repeated sums in the size formula are the products the size-only branches compute |
| Serializer.EndpointsSize | usb-driver.c:232 | the size-only branch's (endpoint + pipe) * bNumEndpoints equals the endpoint records plus the pipe records the fill branch writes |
| Serializer.SizePass | usb-driver.c:117-236 | the size pass returns DeviceSize: the device record, then for each configuration its record, its interface records and, for each alternate setting, its record plus an endpoint and a pipe record per endpoint |
| Serializer.FillPass | usb-driver.c:81-239 | the fill pass writes exactly DeviceRecords and returns DeviceSize, the same length the size pass returns |
| Serializer.FillConfig | usb-driver.c:119-236 | one configuration appends its records after the buffer, starting at len, and updates only the head record's pConfigs, pActiveConfig and pActiveInterface; len grows by the configuration's size |
| Serializer.FillInterfaceRecords | usb-driver.c:148-159 | appends one interface record per interface, each with dwNumAltSettings, sets pActiveInterface[j] to record j's offset, and grows len by sizeof(WDU_INTERFACE) per interface |
| Serializer.FillInterfaces | usb-driver.c:164-235 | for every interface, points pAlternateSettings and pActiveAltSetting at the offset where its alternate settings start, then appends them |
| Serializer.FillInterface | usb-driver.c:164-235 | one interface: patches its two alternate-setting slots to len, then appends its alternate settings, keeping the layout invariant for the next interface |
| Serializer.FillAltSettings | usb-driver.c:174-234 | the alternate settings of one interface are appended in order; len grows by their size |
| Serializer.FillAltSetting | usb-driver.c:176-230 | one alternate setting: its record with the interface descriptor, pEndpointDescriptors at the first endpoint and pPipes at the first pipe, then its endpoint and pipe records |
| Serializer.FillEndpoints | usb-driver.c:199-211 | appends one endpoint descriptor per endpoint, in order; len grows by sizeof(WDU_ENDPOINT_DESCRIPTOR) each |
| Serializer.FillPipes | usb-driver.c:213-230 | appends one pipe record per endpoint, in order; len grows by sizeof(WDU_PIPE_INFO) each |
| Serializer.InterfaceOffsetsAt | usb-driver.c:149-158 | pActiveInterface of one configuration holds exactly the first j interface slots, and slot q is the offset of interface record q |
| Layout.RecordsSizeAppend | usb-driver.c:117-236 | the byte count of a buffer is additive over concatenation |
| Layout.UniformSize | usb-driver.c:161 | records of a common size k take k bytes each |
| Layout.AltRecordsSize | usb-driver.c:184-232 | the records of one alternate setting take exactly the bytes the size formula counts for it |
| Layout.AltsRecordsSize | usb-driver.c:174-234 | the records of an interface's alternate settings take exactly their counted size |
| Layout.IfacesRecordsSize | usb-driver.c:164-235 | the alternate-setting records of a configuration's interfaces take exactly their counted size |
| Layout.ConfigRecordsSize | usb-driver.c:119-236 | the records of one configuration take exactly ConfigSize bytes |
| Layout.ConfigsRecordsSize | usb-driver.c:119-236 | the records of all configurations take exactly their counted size |
| Layout.DeviceRecordsSize | usb-driver.c:598-605 | the buffer the fill pass writes takes exactly the number of bytes the size pass reports |
| Layout.AltEndpointReference | usb-driver.c:176-211 | in an alternate setting's records, record 1+l is endpoint l's descriptor at byte offset pEndpointDescriptors + l * sizeof(WDU_ENDPOINT_DESCRIPTOR), and the alternate-setting record carries its interface descriptor |
| Layout.AltPipeReference | usb-driver.c:213-230 | record 1+n+l is endpoint l's pipe, at byte offset pPipes + l * sizeof(WDU_PIPE_INFO) |
| Layout.ConfigInterfaceReferences | usb-driver.c:127-172 | the configuration record carries its descriptor; interface q's record is at byte offset pInterfaces + q * sizeof(WDU_INTERFACE), counts its alternate settings and points both alternate-setting slots at where they start |
| Layout.AltsRecordsFirst | usb-driver.c:169-181 | an interface's alternate settings begin with the record of alternate setting 0 |
| Layout.IfaceFirstAlt | usb-driver.c:164-181 | interface q's alternate settings follow those of the interfaces before it and begin with alternate setting 0 |
| Layout.IfacesRecordsPrefix | usb-driver.c:164-235 | the records of the first q interfaces are a prefix of those of all interfaces |
| Layout.ConfigAltSettingRecord | usb-driver.c:169-181 | the record at FirstAltIndex(q) is the alternate-setting record of interface q's alternate setting 0 |
| Layout.ConfigAltSettingReference | usb-driver.c:168-171 | pAlternateSettings and pActiveAltSetting of interface q hold the byte offset of that record, relative to where the configuration is laid out; Placement.DeviceAltSetting places every other alternate setting |
| Layout.SizeOfConfigPrefix | usb-driver.c:126-161 | a configuration record and its interface records take the configuration size plus one interface size per record |
| Layout.DeviceConfigRecord | usb-driver.c:119-141 | the record at LastConfigIndex is the configuration record of the last configuration |
| Layout.DeviceConfigReference | usb-driver.c:113-130 | pConfigs and pActiveConfig are unset with no configuration; otherwise both hold the byte offset of the last configuration's record |
| Layout.LastConfigOffset | usb-driver.c:117-130 | the last configuration's record starts after the device record and the records of all earlier configurations |
| Layout.ActiveInterfacesDomain | usb-driver.c:152 | pActiveInterface[j] is written exactly when some configuration has an interface j |
| Layout.ActiveInterfacesValue | usb-driver.c:152 | pActiveInterface[j] is the offset of interface record j of the last configuration that has an interface j |
| Placement.ConfigsRecordsStep | usb-driver.c:119-236 | the records of configurations 0..i are those of 0..i-1 followed by configuration i's, laid out at the offset the earlier ones add up to |
| Placement.ConfigsRecordsPrefix | usb-driver.c:119-236 | the records of the first i configurations begin the records of all of them |
| Placement.IfacesRecordsStep | usb-driver.c:164-235 | the alternate-setting records of interfaces 0..q are those of 0..q-1 followed by interface q's, laid out where the earlier ones end |
| Placement.AltsRecordsStep | usb-driver.c:174-234 | the records of alternate settings 0..m are those of 0..m-1 followed by setting m's, laid out where the earlier ones end |
| Placement.AltsRecordsPrefix | usb-driver.c:174-234 | the records of the first m alternate settings begin the records of all of them |
| Placement.ConfigHeadSize | usb-driver.c:126-161 | a configuration record and its interface records take sizeof(WDU_CONFIGURATION) plus sizeof(WDU_INTERFACE) per interface |
| Placement.AltWithin | usb-driver.c:174-234 | alternate setting m occupies the records right after settings 0..m-1 and starts at the byte offset their sizes add up to |
| Placement.IfaceAltsWithin | usb-driver.c:164-235 | interface q's alternate settings occupy the records right after those of interfaces 0..q-1 and start at the byte offset their sizes add up to |
| Placement.AltsWithin | usb-driver.c:164-181 | inside a configuration's records, interface q's alternate settings occupy the records from FirstAltIndex(q) on and start at byte AltsStart(q) |
| Placement.AltInConfig | usb-driver.c:164-196 | inside a configuration's records, alternate setting m of interface q occupies its records after the settings before it, at the byte offset they add up to |
| Placement.ConfigWithin | usb-driver.c:117-145 | configuration i occupies the device's buffer from record ConfigIndex(i) on and starts at byte ConfigBase(i): after the device record and configurations 0..i-1 |
| Placement.AltInDevice | usb-driver.c:119-196 | alternate setting m of interface q of configuration i occupies the device's buffer from record AltIndex on and starts at byte AltBase |
| Placement.DeviceAltSetting | usb-driver.c:180-196 | the record at AltIndex is the alternate-setting record of that setting, with its own interface descriptor, at byte offset AltBase, for every setting and not only setting 0 |
| Placement.PlacedEndpoint | usb-driver.c:199-211 | wherever an alternate setting is laid out, record 1+l after it is endpoint l's descriptor, at byte offset pEndpointDescriptors + l * sizeof(WDU_ENDPOINT_DESCRIPTOR) |
| Placement.PlacedPipe | usb-driver.c:213-230 | wherever an alternate setting is laid out, record 1+n+l after it is endpoint l's pipe, at byte offset pPipes + l * sizeof(WDU_PIPE_INFO) |
| Placement.PlacedInterface | usb-driver.c:127-158 | wherever a configuration is laid out, its record comes first at its own offset, pInterfaces points just past it, and interface q's record is at pInterfaces + q * sizeof(WDU_INTERFACE) |
| Placement.DeviceEndpointReference | usb-driver.c:199-211 | in the device's buffer, pEndpointDescriptors of every alternate setting plus l * sizeof(WDU_ENDPOINT_DESCRIPTOR) is the byte offset of the descriptor of its endpoint l |
| Placement.DevicePipeReference | usb-driver.c:213-230 | in the device's buffer, pPipes of every alternate setting plus l * sizeof(WDU_PIPE_INFO) is the byte offset of the pipe of its endpoint l |
| Placement.DeviceInterfaceReference | usb-driver.c:127-158 | in the device's buffer, configuration i's record is at byte ConfigBase(i), and pInterfaces plus q * sizeof(WDU_INTERFACE) is the byte offset of interface q's record |
| Placement.DeviceAltSettingsReference | usb-driver.c:168-171 | in the device's buffer, pAlternateSettings and pActiveAltSetting of every interface hold the byte offset of its alternate setting 0 |
| Placement.DeviceActiveInterface | usb-driver.c:149-152 | in the device's buffer, pActiveInterface[j] is the byte offset of interface record j of the last configuration that has an interface j |
| Placement.DeviceLastConfig | usb-driver.c:126-130 | pConfigs and pActiveConfig hold ConfigBase of the last configuration, the one ConfigWithin places there |
| Parport.RegionOf | usb-driver.c:261-327 | the address decoder's if-chain: an ECP register only while ecpbase is nonzero, and an address is unmapped exactly when it is none of the six registers |
| Parport.Pc3Bits | usb-driver.c:283-289 | under FORCE_PC3_IDENT bits 0-4 and 6 are the real status; bit 5 is set exactly when bit 6 of the last data write is set, and bit 7 exactly when it is clear |
| Parport.TransferStep | usb-driver.c:241-339 | pp_transfer leaves the globals; does nothing with no port; updates last_pp_write only on a data write; echoes the byte on any write; changes registers only through a successful ioctl; returns -1 exactly for an unsupported command on an SPP register or a failed ioctl, else 0 |
| Parport.ReadBack | usb-driver.c:261-307 | a successful read returns the control register, or the status register (PC3-adjusted when forced); a data-register read changes nothing |
| Parport.WriteThrough | usb-driver.c:268-310 | a successful write to the data or control register stores the byte there |
| Parport.MultiSteps | usb-driver.c:742-745 | as many records come back as go in; the globals are kept; no records return 0 and change nothing |
| Parport.MultiStepsNext | usb-driver.c:742-745 | each iteration extends the result by one pp_transfer on the next record in the state the earlier ones left |
| Parport.MultiStepsSpec | usb-driver.c:742-745 | record i is written back by its own step in the state records 0..i-1 leave, only its byte changes, and the call returns the last record's result |
| Parport.MultiClosedPort | usb-driver.c:258-259 | with no port open, MULTI_TRANSFER returns 0 and changes neither the records nor the state |
| Events.HitIgnores | usb-driver.c:645-667 | a match never depends on the table's interface class or on any interface but a configuration's first |
| Events.Scan | usb-driver.c:626-671 | the table, bus, device loops leave the selection ScanTables specifies |
| Events.ScanConfigs | usb-driver.c:647-667 | for a device whose descriptor fields match, the configuration and alternate-setting loops select it exactly when some configuration's first interface has a matching alternate setting |
| Events.ScanDevicesNone | usb-driver.c:639-668 | with no hit on the bus, the device loop keeps the selection |
| Events.ScanDevicesLast | usb-driver.c:639-668 | the device loop selects the last hitting device of the bus |
| Events.ScanBussesNone | usb-driver.c:636-669 | with no hit on any bus, the bus loop keeps the selection |
| Events.ScanBussesLast | usb-driver.c:636-669 | the bus loop selects the last hit in bus, device order |
| Events.NoMatchKeepsSelection | usb-driver.c:626-671 | with no hit at all, usbdevice and card_type stay as they were |
| Events.LastMatchWins | usb-driver.c:626-671 | the selected device is the last hit in table, bus, device order, and card_type is the event's |
| Events.LastDevHitExists | usb-driver.c:639-668 | a bus with a hit has a last hit |
| Events.LastBusHitExists | usb-driver.c:636-669 | busses with a hit have a last hit |
| Events.LastHitExists | usb-driver.c:626-671 | a scan with a hit has a last hit |
| Events.MatchSelects | usb-driver.c:626-671 | if some table matches some device, the scan selects the last hit with the event's card type |
| Events.EventPull | usb-driver.c:814-881 | with no device selected the payload is untouched; otherwise action is 1, event id 109, unique id 110, card_type is reported and match table 0 describes the selected device and its first alternate setting |
| Events.ReportedAgrees | usb-driver.c:849-856 | the reported vendor, product, class and subclass equal those of every table the device matched |
| Events.ScanKeepsReportable | usb-driver.c:843-857 | the scan only selects devices whose first configuration, interface and alternate setting exist, so EVENT_PULL can report them |
| Interrupts.TryLock | usb-driver.c:538 | trylock leaves the mutex held and reports whether it was already held |
| Interrupts.Enable | usb-driver.c:504-521 | interrupts are on, the mutex is held, fEnableOk is 1 and fStopped is 0 |
| Interrupts.Disable | usb-driver.c:523-546 | interrupts are off, dwCounter is 0, fStopped is 1, and the mutex ends held exactly when it was free |
| Interrupts.Wait | usb-driver.c:757-788 | with a device selected and a zero counter the call returns at once with the counter set to 1; otherwise it blocks exactly while the mutex is held and leaves the payload alone |
| Interrupts.EnableIdempotent | usb-driver.c:504-521 | enabling twice is enabling once |
| Interrupts.EnableWaitWaitDisable | usb-driver.c:504-546 | after INT_ENABLE the first INT_WAIT returns with counter 1, the second blocks, and after INT_DISABLE a waiter returns |
| Interrupts.DisableTwiceHoldsGate | usb-driver.c:535-539 | a second INT_DISABLE re-takes the mutex, so a later INT_WAIT blocks though interrupts are off |
| BaseAddr.DigitChar | usb-driver.c:398-399 | each digit prints as a decimal digit character |
| BaseAddr.Decimal | usb-driver.c:1028-1030 | the printed number is a non-empty digit string with no leading zero |
| BaseAddr.ParseDecimalOfDecimal | usb-driver.c:1028-1030 | reading back the printed number gives the number |
| BaseAddr.DecimalInjective | usb-driver.c:398-399 | distinct parport numbers give distinct device paths |
| BaseAddr.LeadingNumberOf | usb-driver.c:1028-1030 | the first number of a line is the digit run up to the first non-digit |
| BaseAddr.BaseAddrFirstNumber | usb-driver.c:1028-1030 | the first number on parport N's base-addr line is N * 0x10 |
| BaseAddr.WindowPath | usb-driver.c:398-399 | every address in parport N's 0x10 window opens /dev/parportN |
| BaseAddr.BaseAddrRoundTrip | usb-driver.c:398-399 | registering the base address read from parport N's base-addr line, or any address in its window, opens /dev/parportN |

## Left out

- **Interposition and forwarding.** The harness of `ioctl`, `open`,
  `close`, `fopen`, `fclose`, `fgets`, `access`, `semop` and friends is
  left out. It resolves the real symbols with `dlsym` and forwards
  requests on other descriptors. The non-`NO_WINDRVR` build, which
  forwards every request to the real driver, is left out too. The route
  `Forward` stands for all of this.
- **libusb and ppdev calls** are results passed in as parameters:
  - `usb_open` (always assumed to succeed);
  - `usb_claim_interface` and `usb_set_altinterface`;
  - `usb_control_msg` and the bulk calls;
  - `open` of the parport;
  - `PPCLAIM`, `PPNEGOT`, `PPWDATA`, `PPRSTATUS`, `PPRCONTROL`,
    `PPWCONTROL`.

  Bus enumeration (`usb_init`, `usb_find_busses`, `usb_find_devices`)
  is left out. The busses are an input of the constructor.
- **The release in `CARD_UNREGISTER`.** The source ignores the results
  of `ioctl(parportfd, PPRELEASE)` and `close(parportfd)`
  (usb-driver.c:805-809). `Dispatch.Driver.CardUnregister` therefore has
  no parameter for them, and only its effect on `parportfd` is modelled.
- **Blocking.** `pthread_mutex_lock` on a held mutex is reported as the
  outcome `Blocked`, not modelled as a thread that waits. Concurrency is
  not modelled.
- **JTAGKEY.** The `JTAGKEY` build's mapping of base address 0x30 to an
  Amontec JTAGkey (`jtagkey_init`, `jtagkey_transfer`) is a foreign
  module. That build is not part of this model.
- **Diagnostics.** `DPRINTF`, `fprintf` and `hexdump` output is left out.
  This includes the debug print in the matcher that indexes
  `altsetting[i]` with the table index.
- **`VERSION`.** It copies a fixed version string and the number 802 into
  the payload. `LICENSE` and `EVENT_UNREGISTER` do nothing in this build.
  These three are routed (`Dispatch.RouteOf`) but their payloads are not
  modelled.
- **`/proc/modules` and the base-addr file.** The fake `/proc/modules`
  lines and the `fopen` interposer are left out. That interposer
  remembers which of `parport0` to `parport3` was opened. The base-addr
  lemmas hold for every parport number.
- **Byte layouts.** The `WDU_*` structs and the caller's buffer are a
  sequence of records with symbolic sizes. Pointers into the buffer are
  byte offsets from its start. The fixed-size
  `pActiveInterface` array is a map from interface number to offset, and
  its bound is not modelled. The fill pass writes the caller's buffer
  without checking its size, and `pSize` is unused. The model writes a
  fresh sequence.
- **Integer widths.** Offsets, sizes and byte counts are unbounded, and
  the size formula uses repeated addition (`Serializer.Times`).
  `int`/`unsigned long` overflow is left out. The exception is the event
  handle, which wraps at 2^64. `%d` of `baseaddrnum * 0x10` is treated as
  non-negative.
- Dispatch.Driver.SetInterface: requires the interface and alternate
  setting to exist in configuration 0 of the selected device. The source
  indexes `config[0].interface[..].altsetting[..]` without a check.
- Dispatch.Driver.GetDeviceData: requires a selected device when
  `dwBytes` is nonzero. The source then dereferences `usbdevice`
  unchecked.
- Dispatch.Driver.EventRegister: requires `dwNumMatchTables` not to
  exceed the tables present. The source reads past them otherwise.
- Events.EventPull: requires match table 0 to exist and the selected
  device to be reportable. Every scan preserves the latter
  (`Events.ScanKeepsReportable`).
