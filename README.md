# LD07 rangefinder frame codec and driver, in Dafny

This project models the wire protocol of the LD07 rangefinder driver
(`ld_07/ld_07.py`) and proves properties of it:

- the 8-bit additive checksum (`checksum_bytes`);
- the encoding of a `Packet` into a frame (`Packet.inner_to_bytes`,
  `Packet.to_bytes`): start marker `AA AA AA AA`, device address, command
  code, little-endian 16-bit offset, little-endian 16-bit payload length,
  payload, checksum;
- the `LD07` driver object: `receive_packet` reading a frame step by step
  from the serial port, `send_packet` writing one, and `set_address`
  sending the configure-address request and receiving one reply.

Files:

- `bytes.dfy` (module `Bytes`): the byte type and the little-endian 16-bit
  fields that `struct.pack("<H")` / `struct.unpack("<H")` produce and read.
- `cmd_code.dfy` (module `CmdCode`): the five command codes.
- `codec.dfy` (module `Codec`): checksum, `Packet`, encoding, and `Receive`,
  the outcome of `receive_packet` as a function of the bytes waiting on the
  port. The lemmas here relate encoding and decoding.
- `stream.dfy` (module `Stream`): the serial port as a class with the
  incoming bytes, a read cursor and a log of written bytes. It stands in for
  `busio.UART`.
- `driver.dfy` (module `Driver`): the `LD07` class, whose methods are proved
  against `Codec.ToBytes` and `Codec.Receive`. It also holds the scenarios
  of `tests/test_ld07.py` as client methods that use only those contracts.

Modelling decisions:

- Bytes are integers 0..255. `Packet` fields are plain integers, as in
  Python. `Encodable` states the ranges `struct.pack("<BBHH", ...)` accepts.
  Encoding requires them, because the source never catches `struct.error`.
- The command byte of a received packet is kept raw. It is never checked
  against the enumeration (`ReceiveKeepsUnknownCommand`).
- The two `RuntimeError`s of `receive_packet` are the error values
  `BadStart` (carrying the four bytes seen) and `BadChecksum` (carrying the
  received and calculated checksums). Their message text is not modelled.
- The port's `read(n)` returns exactly `n` bytes or fails. When fewer than
  `n` bytes remain, it takes what is left and fails; `receive_packet` then
  ends with `ShortRead`.
- A `Packet` is a value. `receive_packet` builds it by updating the fields
  of the default packet one after another, as the source assigns them.

What the code does and does not do:

- `set_address` discards the reply and computes no device count.
- The checksum of a received frame is taken over the payload actually read
  (`len(data_fields)`). Under the read-exact port this is the declared
  length.
- Unknown command bytes are kept as they are; they are not rejected.

## Model

| member | source | states |
|---|---|---|
| `Bytes.U16Le` | ld_07/ld_07.py:28-33 | a 16-bit field packs into two bytes whose little-endian value is the field; only values 0..65535 are accepted |
| `Bytes.U16Value` | ld_07/ld_07.py:57 | unpacking two bytes low byte first gives a value in 0..65535 |
| `Bytes.U16LeOfValue` | ld_07/ld_07.py:57 | unpacking then packing two header bytes gives back the same two bytes (the other half of the 16-bit round trip) |
| `Codec.SumAppend` | ld_07/ld_07.py:14-17 | the byte sum of a concatenation is the sum of the parts' sums |
| `Codec.ChecksumBytes` | ld_07/ld_07.py:14-17 | the checksum is a byte (0..255), and the checksum of no bytes is 0 |
| `Codec.ChecksumAppend` | ld_07/ld_07.py:14-17 | the checksum is additive modulo 256 over concatenation |
| `Codec.InnerToBytes` | ld_07/ld_07.py:26-35 | the inner bytes are 6 + payload length long: address, command, offset (LE), payload length (LE), then the payload itself |
| `Codec.ToBytes` | ld_07/ld_07.py:37-41 | a frame is 11 + payload length bytes long |
| `Codec.FrameLayout` | ld_07/ld_07.py:20-41 | bytes 0..3 of a frame are AA, byte 4 the address, byte 5 the command, 6..7 the offset (LE), 8..9 the payload length (LE), then the payload; bytes 4 .. end-1 are the inner bytes and the last byte is their checksum |
| `Codec.EncodableExactly` | ld_07/ld_07.py:28-33 | a packet lies in the `"<BBHH"` ranges (address and command 0..255, offset and payload length 0..65535) exactly when some byte stream is received as it |
| `Codec.DefaultPacketFrame` | ld_07/ld_07.py:19-24 | a default `Packet()` is an encodable acknowledgement (0x10) to address 0 with offset 0 and no payload, and encodes to AA AA AA AA 00 10 00 00 00 00 10 |
| `CmdCode.CmdCodesDistinct` | ld_07/ld_07.py:7-12 | the five command codes 0x02, 0x0F, 0x12, 0x16, 0x10 are distinct and each satisfies `IsCmdCode` |
| `Codec.FrameChecksumFields` | ld_07/ld_07.py:26-41 | a frame's checksum byte is the sum of address, command, both offset bytes, both length bytes and all payload bytes, modulo 256 |
| `Codec.Receive` | ld_07/ld_07.py:49-67 | the outcome and byte count of one receive: it never consumes more than is there, and a received packet has consumed exactly 11 + its payload length |
| `Codec.ReceiveToBytes` | ld_07/ld_07.py:49-67 | receiving the encoding of an encodable packet, whatever bytes follow it, returns that packet (address, command, offset and payload) and consumes exactly 11 + payload length bytes |
| `Codec.ReceiveOkIsFrame` | ld_07/ld_07.py:49-67 | conversely, every successful receive returns an encodable packet and has consumed exactly that packet's frame |
| `Codec.ReceiveBadStart` | ld_07/ld_07.py:50-53 | a header whose first four bytes are not AA AA AA AA fails with those four bytes, consuming only the 10 header bytes |
| `Codec.ReceiveChecksum` | ld_07/ld_07.py:59-65 | a complete frame with a good start marker fails with BadChecksum(received, calculated) exactly when its checksum byte differs from the checksum of bytes 4 .. 9+N; either way 11 + N bytes are consumed |
| `Codec.ReceiveCorruptedChecksum` | ld_07/ld_07.py:62-65 | replacing the checksum byte of any frame by another byte makes the receive fail with BadChecksum(that byte, the frame's true checksum) |
| `Codec.ReceiveConsumption` | ld_07/ld_07.py:50-62 | a receive never consumes more than is there; it consumes 10 bytes on a bad start and 10 + N + 1 on success or a checksum error; it runs short exactly when the header or the declared frame is incomplete, and then consumes everything; a declared length of 0 yields an empty payload |
| `Codec.ReceiveKeepsUnknownCommand` | ld_07/ld_07.py:56 | a frame whose command byte is not one of the enumerated codes still round-trips with that raw byte |
| `Codec.ConfigAddressFrameLiteral` | tests/test_ld07.py:7-18 | address 1, command 0x16, offset 0, empty payload encode to AA AA AA AA 01 16 00 00 00 00 17 |
| `Codec.ReceiveSimplePacketLiteral` | tests/test_ld07.py:45-66 | that frame is received as address 1, command 0x16, offset 0, empty payload, consuming 11 bytes |
| `Codec.ReceiveBadStartLiteral` | tests/test_ld07.py:68-85 | a header starting FF FF FF AA fails with BadStart(FF FF FF AA) |
| `Codec.ReceiveBadChecksumLiteral` | tests/test_ld07.py:87-104 | the header of that frame followed by FF fails with BadChecksum(FF, 17) |
| `Stream.Uart.Read` | ld_07/ld_07.py:50-62 | a read of n bytes returns the next n pending bytes and advances the cursor by n, or, when fewer remain, fails and consumes the rest; nothing is written |
| `Stream.Uart.Write` | ld_07/ld_07.py:71 | a write appends the bytes to the output log and reads nothing |
| `Driver.LD07.constructor` | ld_07/ld_07.py:45-47 | the driver keeps the given port and its own device address, 1 by default |
| `Driver.LD07.ReceivePacket` | ld_07/ld_07.py:49-67 | the sequential reads return exactly `Codec.Receive` of the pending bytes and advance the cursor by the bytes it says are consumed; nothing is written |
| `Driver.LD07.SendPacket` | ld_07/ld_07.py:69-71 | sending appends exactly the packet's frame to the output, once, and reads nothing |
| `Driver.LD07.SetAddress` | ld_07/ld_07.py:73-83 | writes exactly AA AA AA AA 00 16 00 00 00 00 16, then receives one frame; it succeeds exactly when that receive does and otherwise fails with the same error |
| `Driver.ConfigAddressRequestLiteral` | ld_07/ld_07.py:76-81 | the packet `set_address` builds (address 0, command 0x16, defaults elsewhere) encodes to AA AA AA AA 00 16 00 00 00 00 16 |
| `Driver.SendPacketScenario` | tests/test_ld07.py:27-43 | from the method contracts alone: sending the address-1 configure packet on a fresh port writes AA AA AA AA 01 16 00 00 00 00 17 |
| `Driver.ReceiveSimplePacketScenario` | tests/test_ld07.py:45-66 | from the method contracts alone: the 11-byte frame is received as command 0x16, address 1, offset 0 |
| `Driver.BadStartScenario` | tests/test_ld07.py:68-85 | from the method contracts alone: the FF FF FF AA header makes the receive fail with BadStart |
| `Driver.BadChecksumScenario` | tests/test_ld07.py:87-104 | from the method contracts alone: the FF checksum byte makes the receive fail with BadChecksum |

## Left out

- Port construction: `busio.UART(tx_pin, rx_pin, baud=921600)` is hardware setup. The driver is given a `Stream.Uart` instead.
- Partial reads of the real port: CircuitPython's `read(n)` may return fewer bytes or `None` after a timeout. Python would then fail in slicing, `struct.unpack` or indexing, checksum a short payload, or raise the bad-start error when a short header does not begin with the marker. The model treats every short read as one `ShortRead` error.
- Partial or failed writes: a real `write` may write fewer bytes or return `None`, and `send_packet` ignores its result. `Stream.Uart.Write` always writes every byte.
- `get_correction_parameter` is an empty method in the source; there is nothing to model. No calibration, distance-sample or device-count decoding exists in the code, so none is modelled.
- Codec.ToBytes: out-of-range fields make `struct.pack` raise `struct.error`, which nothing catches; the model makes the ranges a precondition (`Encodable`) instead of modelling that exception. The same holds for Codec.InnerToBytes, for Driver.LD07.SendPacket (which on such a packet would raise before writing anything), and for the 16-bit range of Bytes.U16Le.
- `Packet` objects are mutable in Python; the model treats each packet as a value. Their class-level defaults are immutable, so no behaviour depends on sharing them.
- The `RuntimeError` message texts are not modelled, only the error kind and the values it carries.
- `tasks.py` (a test-runner script) and the mock scaffolding of `tests/test_ld07.py` are not part of this model.
