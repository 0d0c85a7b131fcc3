/** The `LD07` driver object: it owns a serial port and exchanges frames
    over it. */
module Driver {
  import opened Bytes
  import CmdCode
  import opened Codec
  import opened Stream

  /** The configure-address request: device address 0, no payload. */
  const ConfigAddressPacket: Packet := DefaultPacket.(cmdCode := CmdCode.PackConfigAddress, deviceAddress := 0)

  /** What a receive outcome becomes once its packet is discarded. */
  function Discard(r: Result<Packet>): (d: Result<()>)
    ensures d.Ok? <==> r.Ok?
    ensures d.Err? ==> d.error == r.error
  {
    match r
    case Ok(_) => Ok(())
    case Err(e) => Err(e)
  }

  class LD07 {
    const uart: Uart
    var deviceAddress: int

    constructor (uart: Uart, deviceAddress: int := 0x1)
      ensures this.uart == uart && this.deviceAddress == deviceAddress
    {
      this.uart := uart;
      this.deviceAddress := deviceAddress;
    }

    /** `receive_packet`: reads the 10-byte header, checks the start marker,
        reads the declared payload (only when its length is not zero) and
        the checksum byte, and checks the checksum against the rebuilt inner
        bytes. */
    method ReceivePacket() returns (r: Result<Packet>)
      requires uart.Valid()
      modifies uart
      ensures uart.Valid() && uart.input == old(uart.input) && uart.output == old(uart.output)
      ensures r == Receive(old(uart.Pending())).0
      ensures uart.cursor == old(uart.cursor) + Receive(old(uart.Pending())).1
    {
      ghost var s := uart.Pending();
      ReceiveShort(s);
      var header := uart.Read(HeaderSize);
      if header.None? {
        return Err(ShortRead);
      }
      var h := header.value;
      assert h == s[..HeaderSize];
      assert h[..4] == s[..4];
      if h[..4] != StartMarker {
        ReceiveBadStart(s);
        return Err(BadStart(h[..4]));
      }

      var p := DefaultPacket;
      p := p.(deviceAddress := h[4], cmdCode := h[5]);
      var dataFieldLength := U16Value(h[8], h[9]);
      p := p.(offsetAddress := U16Value(h[6], h[7]));
      assert dataFieldLength == DeclaredLength(s);
      assert uart.Pending() == s[HeaderSize..];

      if dataFieldLength != 0 {
        var data := uart.Read(dataFieldLength);
        if data.None? {
          return Err(ShortRead);
        }
        p := p.(dataFields := data.value);
      }
      assert p == Packet(s[4], s[5], U16Value(s[6], s[7]), s[HeaderSize..HeaderSize + dataFieldLength]);
      assert uart.Pending() == s[HeaderSize + dataFieldLength..];

      var received := uart.Read(1);
      if received.None? {
        return Err(ShortRead);
      }
      var receivedChecksum := received.value[0];
      assert receivedChecksum == s[HeaderSize + dataFieldLength];
      ReceiveComplete(s, p);
      var calculatedChecksum := ChecksumBytes(InnerToBytes(p));
      if receivedChecksum != calculatedChecksum {
        return Err(BadChecksum(receivedChecksum, calculatedChecksum));
      }
      return Ok(p);
    }

    /** `send_packet`: writes the frame of `packet` to the port. */
    method SendPacket(packet: Packet)
      requires uart.Valid() && Encodable(packet)
      modifies uart
      ensures uart.Valid() && uart.input == old(uart.input) && uart.cursor == old(uart.cursor)
      ensures uart.output == old(uart.output) + ToBytes(packet)
    {
      var data := ToBytes(packet);
      uart.Write(data);
    }

    /** `set_address`: sends the configure-address request to device 0 and
        receives one frame, whose contents it discards. `newAddress` is
        accepted and not used. */
    method SetAddress(newAddress: int) returns (r: Result<()>)
      requires uart.Valid()
      modifies uart
      ensures uart.Valid() && uart.input == old(uart.input)
      ensures uart.output ==
                old(uart.output) + [0xAA, 0xAA, 0xAA, 0xAA, 0x00, 0x16, 0x00, 0x00, 0x00, 0x00, 0x16]
      ensures r == Discard(Receive(old(uart.Pending())).0)
      ensures uart.cursor == old(uart.cursor) + Receive(old(uart.Pending())).1
    {
      var packet := DefaultPacket;
      packet := packet.(cmdCode := CmdCode.PackConfigAddress);
      packet := packet.(deviceAddress := 0);
      ConfigAddressRequestLiteral();
      SendPacket(packet);
      var reply := ReceivePacket();
      r := Discard(reply);
    }
  }

  /** The configure-address request encodes to a fixed frame. */
  lemma ConfigAddressRequestLiteral()
    ensures ToBytes(ConfigAddressPacket) ==
              [0xAA, 0xAA, 0xAA, 0xAA, 0x00, 0x16, 0x00, 0x00, 0x00, 0x00, 0x16]
  {
    var inner: seq<byte> := [0x00, 0x16, 0x00, 0x00, 0x00, 0x00];
    EmptyPayloadInner(0x00, CmdCode.PackConfigAddress);
    assert ChecksumBytes(inner) == 0x16 by { Sum6(inner); }
    ToBytesOfInner(ConfigAddressPacket, inner);
  }

  // ----------------------------------------------- scenarios of the tests

  /** Sending the configure-address packet for device 1 writes its frame once. */
  method SendPacketScenario() returns (written: seq<byte>)
    ensures written == [0xAA, 0xAA, 0xAA, 0xAA, 0x01, 0x16, 0x00, 0x00, 0x00, 0x00, 0x17]
  {
    var uart := new Uart([]);
    var lidar := new LD07(uart);
    var packet := DefaultPacket;
    packet := packet.(deviceAddress := 0x01);
    packet := packet.(cmdCode := CmdCode.PackConfigAddress);
    lidar.SendPacket(packet);
    written := uart.output;
    assert written == ToBytes(packet) by {
      assert [] + ToBytes(packet) == ToBytes(packet);
    }
    ConfigAddressFrameLiteral();
  }

  /** A header and checksum with no payload are received as the packet. */
  method ReceiveSimplePacketScenario() returns (r: Result<Packet>)
    ensures r.Ok? && r.value.cmdCode == CmdCode.PackConfigAddress
    ensures r.value.deviceAddress == 0x01 && r.value.offsetAddress == 0
  {
    var uart := new Uart([0xAA, 0xAA, 0xAA, 0xAA, 0x01, 0x16, 0x00, 0x00, 0x00, 0x00, 0x17]);
    var lidar := new LD07(uart);
    ReceiveSimplePacketLiteral();
    r := lidar.ReceivePacket();
  }

  /** A wrong start marker makes the receive fail. */
  method BadStartScenario() returns (r: Result<Packet>)
    ensures r.Err? && r.error.BadStart?
  {
    var uart := new Uart([0xFF, 0xFF, 0xFF, 0xAA, 0x01, 0x16, 0x00, 0x00, 0x00, 0x00, 0x17]);
    var lidar := new LD07(uart);
    ReceiveBadStartLiteral();
    r := lidar.ReceivePacket();
  }

  /** A wrong checksum byte makes the receive fail. */
  method BadChecksumScenario() returns (r: Result<Packet>)
    ensures r.Err? && r.error.BadChecksum?
  {
    var uart := new Uart([0xAA, 0xAA, 0xAA, 0xAA, 0x01, 0x16, 0x00, 0x00, 0x00, 0x00, 0xFF]);
    var lidar := new LD07(uart);
    ReceiveBadChecksumLiteral();
    r := lidar.ReceivePacket();
  }
}
