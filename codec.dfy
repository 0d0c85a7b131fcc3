/** The LD07 wire frame: checksum, encoding of a packet, and the decoding
    that `LD07.receive_packet` performs, stated as a function of the bytes
    the stream delivers.

    Frame layout (all 16-bit fields little-endian):
      0..3    start marker AA AA AA AA
      4       device address
      5       command code
      6..7    offset address
      8..9    payload length N
      10..    N payload bytes
      10+N    checksum: sum of bytes 4 .. 9+N, modulo 256 */
module Codec {
  import opened Bytes
  import CmdCode

  /** Bytes of the start marker, the header and header plus checksum. */
  const StartMarker: seq<byte> := [0xAA, 0xAA, 0xAA, 0xAA]
  const HeaderSize: nat := 10
  const Overhead: nat := 11

  // ---------------------------------------------------------------- checksum

  /** The plain (unbounded) sum of a sequence of bytes, as Python's `sum`. */
  function Sum(s: seq<byte>): nat
  {
    if s == [] then 0 else s[0] + Sum(s[1..])
  }

  lemma {:induction false} SumAppend(a: seq<byte>, b: seq<byte>)
    ensures Sum(a + b) == Sum(a) + Sum(b)
  {
    if a == [] {
      assert a + b == b;
    } else {
      assert (a + b)[1..] == a[1..] + b;
      SumAppend(a[1..], b);
    }
  }

  /** `checksum_bytes`: the sum of the bytes truncated to 8 bits. */
  function ChecksumBytes(data: seq<byte>): (cs: byte)
    ensures data == [] ==> cs == 0
  {
    Sum(data) % 256
  }

  /** The checksum is additive: the checksum of a concatenation is the
      8-bit sum of the checksums of its parts. */
  lemma ChecksumAppend(a: seq<byte>, b: seq<byte>)
    ensures ChecksumBytes(a + b) == (ChecksumBytes(a) + ChecksumBytes(b)) % 256
  {
    SumAppend(a, b);
    var x, y := Sum(a), Sum(b);
    assert x + y == 256 * (x / 256 + y / 256) + (x % 256 + y % 256);
    ModMultiple(x / 256 + y / 256, x % 256 + y % 256);
  }

  lemma {:induction false} ModMultiple(k: nat, r: nat)
    ensures (256 * k + r) % 256 == r % 256
  {
    if k > 0 {
      ModMultiple(k - 1, r + 256);
      assert 256 * k + r == 256 * (k - 1) + (r + 256);
    }
  }

  // ------------------------------------------------------------------ packet

  /** A `Packet`: the fields of one frame. The Python class stores plain
      integers and takes the length field from the payload, so there is no
      separate length field here. */
  datatype Packet = Packet(
    deviceAddress: int,
    cmdCode: int,
    offsetAddress: int,
    dataFields: seq<byte>)

  /** A freshly constructed `Packet()`: the class-level defaults. */
  const DefaultPacket: Packet := Packet(0, CmdCode.PackAck, 0, [])

  /** The ranges `struct.pack("<BBHH", ...)` accepts: address and command
      fit a byte, the offset and the payload length fit 16 bits. */
  predicate Encodable(p: Packet)
  {
    0 <= p.deviceAddress < 256 &&
    0 <= p.cmdCode < 256 &&
    0 <= p.offsetAddress <= MaxU16 &&
    |p.dataFields| <= MaxU16
  }

  /** A package is encodable exactly when some byte stream is received as
      it: the ranges `struct.pack` accepts are the ranges a header can
      carry. */
  lemma EncodableExactly(p: Packet)
    ensures Encodable(p) <==> exists s :: Receive(s).0 == Ok(p)
  {
    if Encodable(p) {
      ReceiveToBytes(p, []);
    }
    if s :| Receive(s).0 == Ok(p) {
      ReceiveOkIsFrame(s);
    }
  }

  /** A default `Packet()` is an encodable acknowledgement to address 0
      with offset 0 and no payload; its frame is
      AA AA AA AA 00 10 00 00 00 00 10. */
  lemma DefaultPacketFrame()
    ensures Encodable(DefaultPacket) && DefaultPacket.cmdCode == CmdCode.PackAck
    ensures ToBytes(DefaultPacket) ==
              [0xAA, 0xAA, 0xAA, 0xAA, 0x00, 0x10, 0x00, 0x00, 0x00, 0x00, 0x10]
  {
    var inner: seq<byte> := [0x00, 0x10, 0x00, 0x00, 0x00, 0x00];
    EmptyPayloadInner(0x00, CmdCode.PackAck);
    assert ChecksumBytes(inner) == 0x10 by { Sum6(inner); }
    ToBytesOfInner(DefaultPacket, inner);
  }

  /** `Packet.inner_to_bytes`: the frame without its start marker and
      checksum. */
  function InnerToBytes(p: Packet): (r: seq<byte>)
    requires Encodable(p)
    ensures |r| == 6 + |p.dataFields|
    ensures r[0] == p.deviceAddress && r[1] == p.cmdCode
    ensures U16Value(r[2], r[3]) == p.offsetAddress
    ensures U16Value(r[4], r[5]) == |p.dataFields|
    ensures r[6..] == p.dataFields
  {
    var header: seq<byte> := [p.deviceAddress, p.cmdCode];
    header + U16Le(p.offsetAddress) + U16Le(|p.dataFields|) + p.dataFields
  }

  /** `Packet.to_bytes`: start marker, inner bytes, checksum byte. */
  function ToBytes(p: Packet): (f: seq<byte>)
    requires Encodable(p)
    ensures |f| == Overhead + |p.dataFields|
  {
    var inner := InnerToBytes(p);
    StartMarker + inner + [ChecksumBytes(inner)]
  }

  /** The layout of a frame, byte by byte. */
  lemma FrameLayout(p: Packet)
    requires Encodable(p)
    ensures var f := ToBytes(p);
            |f| == Overhead + |p.dataFields| &&
            f[..4] == StartMarker &&
            f[4] == p.deviceAddress && f[5] == p.cmdCode &&
            U16Value(f[6], f[7]) == p.offsetAddress &&
            U16Value(f[8], f[9]) == |p.dataFields| &&
            f[HeaderSize..|f| - 1] == p.dataFields &&
            f[4..|f| - 1] == InnerToBytes(p) &&
            f[|f| - 1] == ChecksumBytes(f[4..|f| - 1])
  {
    var inner := InnerToBytes(p);
    var f := ToBytes(p);
    assert f == StartMarker + inner + [ChecksumBytes(inner)];
    assert f[4..|f| - 1] == inner;
    assert f[HeaderSize..|f| - 1] == inner[6..];
  }

  /** The checksum of a frame is the 8-bit sum of its fields' bytes. */
  lemma FrameChecksumFields(p: Packet)
    requires Encodable(p)
    ensures var f := ToBytes(p);
            f[|f| - 1] ==
              (p.deviceAddress + p.cmdCode
               + p.offsetAddress % 256 + p.offsetAddress / 256
               + |p.dataFields| % 256 + |p.dataFields| / 256
               + Sum(p.dataFields)) % 256
  {
    FrameLayout(p);
    InnerSum(p);
  }

  lemma InnerSum(p: Packet)
    requires Encodable(p)
    ensures Sum(InnerToBytes(p)) ==
              p.deviceAddress + p.cmdCode
              + p.offsetAddress % 256 + p.offsetAddress / 256
              + |p.dataFields| % 256 + |p.dataFields| / 256
              + Sum(p.dataFields)
  {
    var fields: seq<byte> := [p.deviceAddress, p.cmdCode];
    var offset, length := U16Le(p.offsetAddress), U16Le(|p.dataFields|);
    var head := fields + offset + length;
    assert InnerToBytes(p) == head + p.dataFields;
    assert head[0] == p.deviceAddress && head[1] == p.cmdCode;
    assert head[2] == offset[0] && head[3] == offset[1];
    assert head[4] == length[0] && head[5] == length[1];
    SumAppend(head, p.dataFields);
    Sum6(head);
  }

  lemma Sum6(h: seq<byte>)
    requires |h| == 6
    ensures Sum(h) == h[0] as int + h[1] + h[2] + h[3] + h[4] + h[5]
  {
    assert h[1..][1..][1..][1..][1..][1..] == [];
    assert Sum(h[5..]) == h[5] by { assert h[5..][1..] == []; }
    assert Sum(h[4..]) == h[4] + Sum(h[5..]) by { assert h[4..][1..] == h[5..]; }
    assert Sum(h[3..]) == h[3] + Sum(h[4..]) by { assert h[3..][1..] == h[4..]; }
    assert Sum(h[2..]) == h[2] + Sum(h[3..]) by { assert h[2..][1..] == h[3..]; }
    assert Sum(h[1..]) == h[1] + Sum(h[2..]) by { assert h[1..][1..] == h[2..]; }
  }

  // --------------------------------------------------------------- receiving

  /** The error kinds `receive_packet` can end with. `BadStart` and
      `BadChecksum` are its two `RuntimeError`s; `ShortRead` is the stream
      running out before the frame is complete. */
  datatype RecvError =
    | BadStart(observed: seq<byte>)
    | BadChecksum(received: byte, calculated: byte)
    | ShortRead

  datatype Result<T> = Ok(value: T) | Err(error: RecvError)

  /** What `receive_packet` does to the bytes `s` waiting on the stream: the
      outcome and how many bytes it consumes. A read that asks for more
      bytes than are left takes what is left and fails. */
  function Receive(s: seq<byte>): (r: (Result<Packet>, nat))
    ensures r.1 <= |s|
    ensures r.0.Ok? ==> r.1 == Overhead + |r.0.value.dataFields|
  {
    if |s| < HeaderSize then (Err(ShortRead), |s|)
    else if s[..4] != StartMarker then (Err(BadStart(s[..4])), HeaderSize)
    else
      var len := DeclaredLength(s);
      if |s| < Overhead + len then (Err(ShortRead), |s|)
      else
        var p := Packet(s[4], s[5], U16Value(s[6], s[7]), s[HeaderSize..HeaderSize + len]);
        var received := s[HeaderSize + len];
        var calculated := ChecksumBytes(InnerToBytes(p));
        if received != calculated then (Err(BadChecksum(received, calculated)), Overhead + len)
        else (Ok(p), Overhead + len)
  }

  /** The payload length a header declares. */
  function DeclaredLength(s: seq<byte>): (n: nat)
    requires |s| >= HeaderSize
    ensures n <= MaxU16
  {
    U16Value(s[8], s[9])
  }

  /** A receive runs short exactly when the header or the frame it declares
      is incomplete, and then it has consumed everything. */
  lemma ReceiveShort(s: seq<byte>)
    ensures |s| < HeaderSize ==> Receive(s) == (Err(ShortRead), |s|)
    ensures |s| >= HeaderSize && s[..4] == StartMarker && |s| < Overhead + DeclaredLength(s) ==>
              Receive(s) == (Err(ShortRead), |s|)
  {
  }

  /** The outcome of a receive that finds a complete frame behind a good
      start marker, in terms of the packet its header and payload give. */
  lemma ReceiveComplete(s: seq<byte>, p: Packet)
    requires |s| >= HeaderSize && s[..4] == StartMarker
    requires |s| >= Overhead + DeclaredLength(s)
    requires p == Packet(s[4], s[5], U16Value(s[6], s[7]),
                         s[HeaderSize..HeaderSize + DeclaredLength(s)])
    ensures Encodable(p)
    ensures var n := DeclaredLength(s);
            var calculated := ChecksumBytes(InnerToBytes(p));
            Receive(s) == if s[HeaderSize + n] != calculated
                          then (Err(BadChecksum(s[HeaderSize + n], calculated)), Overhead + n)
                          else (Ok(p), Overhead + n)
  {
  }

  /** Round trip: the encoding of a packet, whatever follows it on the
      stream, is received as that same packet, consuming exactly the frame. */
  lemma ReceiveToBytes(p: Packet, rest: seq<byte>)
    requires Encodable(p)
    ensures Receive(ToBytes(p) + rest) == (Ok(p), Overhead + |p.dataFields|)
  {
    var f := ToBytes(p);
    var s := f + rest;
    var n := |p.dataFields|;
    FrameLayout(p);
    assert s[..4] == f[..4];
    assert s[4] == f[4] && s[5] == f[5] && s[6] == f[6] && s[7] == f[7];
    assert s[8] == f[8] && s[9] == f[9];
    assert s[HeaderSize..HeaderSize + n] == f[HeaderSize..|f| - 1];
    assert s[HeaderSize + n] == f[|f| - 1];
    assert f[4..|f| - 1] == InnerToBytes(p);
  }

  /** Conversely, a successful receive has consumed exactly the encoding of
      the packet it returns: receive accepts nothing but well-formed frames. */
  lemma ReceiveOkIsFrame(s: seq<byte>)
    requires Receive(s).0.Ok?
    ensures var p := Receive(s).0.value;
            Encodable(p) &&
            Receive(s).1 == Overhead + |p.dataFields| &&
            s[..Receive(s).1] == ToBytes(p)
  {
    var p := Receive(s).0.value;
    var n := Overhead + |p.dataFields|;
    var inner := InnerToBytes(p);
    U16LeOfValue(s[6], s[7]);
    U16LeOfValue(s[8], s[9]);
    assert inner == s[4..n - 1];
    assert s[..n] == StartMarker + inner + [ChecksumBytes(inner)];
  }

  /** A header whose first four bytes are not the start marker is rejected
      with those four bytes, after consuming only the header. */
  lemma ReceiveBadStart(s: seq<byte>)
    requires |s| >= HeaderSize && s[..4] != StartMarker
    ensures Receive(s) == (Err(BadStart(s[..4])), HeaderSize)
  {
  }

  /** A complete frame with a good start marker is rejected exactly when its
      checksum byte differs from the checksum of bytes 4 .. 9+N. */
  lemma ReceiveChecksum(s: seq<byte>)
    requires |s| >= HeaderSize && s[..4] == StartMarker
    requires |s| >= Overhead + DeclaredLength(s)
    ensures var n := DeclaredLength(s);
            var calculated := ChecksumBytes(s[4..HeaderSize + n]);
            Receive(s).1 == Overhead + n &&
            (Receive(s).0.Ok? <==> s[HeaderSize + n] == calculated) &&
            (s[HeaderSize + n] != calculated ==>
               Receive(s).0 == Err(BadChecksum(s[HeaderSize + n], calculated)))
  {
    var n := DeclaredLength(s);
    var p := Packet(s[4], s[5], U16Value(s[6], s[7]), s[HeaderSize..HeaderSize + n]);
    U16LeOfValue(s[6], s[7]);
    U16LeOfValue(s[8], s[9]);
    assert InnerToBytes(p) == s[4..HeaderSize + n];
  }

  /** Stream consumption: a receive that gets past the start marker and
      finds the whole frame consumes 10 + N + 1 bytes; one that runs short
      consumes everything; a receive never consumes more than is there. */
  lemma ReceiveConsumption(s: seq<byte>)
    ensures Receive(s).1 <= |s|
    ensures Receive(s).0 == Err(ShortRead) <==>
              |s| < HeaderSize || (s[..4] == StartMarker && |s| < Overhead + DeclaredLength(s))
    ensures Receive(s).0 == Err(ShortRead) ==> Receive(s).1 == |s|
    ensures (Receive(s).0.Err? && Receive(s).0.error.BadStart?) ==> Receive(s).1 == HeaderSize
    ensures (Receive(s).0.Ok? || (Receive(s).0.Err? && Receive(s).0.error.BadChecksum?)) ==>
              Receive(s).1 == Overhead + DeclaredLength(s)
    ensures Receive(s).0.Ok? && DeclaredLength(s) == 0 ==> Receive(s).0.value.dataFields == []
  {
  }

  /** The command byte is passed through raw: a frame whose command byte is
      not an enumerated code is received just the same. */
  lemma ReceiveKeepsUnknownCommand(address: byte, command: byte, offset: nat, data: seq<byte>)
    requires !CmdCode.IsCmdCode(command) && offset <= MaxU16 && |data| <= MaxU16
    ensures Receive(ToBytes(Packet(address, command, offset, data))).0 ==
              Ok(Packet(address, command, offset, data))
  {
    var p := Packet(address, command, offset, data);
    ReceiveToBytes(p, []);
    assert ToBytes(p) + [] == ToBytes(p);
  }

  /** Replacing the checksum byte of any frame by a different byte makes the
      receive fail with that byte and the frame's true checksum. */
  lemma ReceiveCorruptedChecksum(p: Packet, b: byte)
    requires Encodable(p) && b != ToBytes(p)[|ToBytes(p)| - 1]
    ensures var f := ToBytes(p);
            Receive(f[..|f| - 1] + [b]) ==
              (Err(BadChecksum(b, f[|f| - 1])), Overhead + |p.dataFields|)
  {
    var f := ToBytes(p);
    var s := f[..|f| - 1] + [b];
    FrameLayout(p);
    assert s[..4] == f[..4];
    assert s[8] == f[8] && s[9] == f[9];
    assert s[4..HeaderSize + |p.dataFields|] == f[4..|f| - 1];
    ReceiveChecksum(s);
  }

  /** The definition of a frame, for a packet whose inner bytes are known. */
  lemma ToBytesOfInner(p: Packet, inner: seq<byte>)
    requires Encodable(p) && InnerToBytes(p) == inner
    ensures ToBytes(p) == StartMarker + inner + [ChecksumBytes(inner)]
  {
  }

  // -------------------------------------------------------- literal frames

  /** The inner bytes of a packet with offset 0 and no payload. */
  lemma EmptyPayloadInner(address: byte, command: byte)
    ensures InnerToBytes(Packet(address, command, 0, [])) ==
              [address, command, 0x00, 0x00, 0x00, 0x00]
  {
  }

  /** The configure-address frame for device 1 (tests/test_ld07.py). */
  lemma ConfigAddressFrameLiteral()
    ensures ToBytes(Packet(0x01, CmdCode.PackConfigAddress, 0, [])) ==
              [0xAA, 0xAA, 0xAA, 0xAA, 0x01, 0x16, 0x00, 0x00, 0x00, 0x00, 0x17]
  {
    var p := Packet(0x01, CmdCode.PackConfigAddress, 0, []);
    var inner: seq<byte> := [0x01, 0x16, 0x00, 0x00, 0x00, 0x00];
    EmptyPayloadInner(0x01, CmdCode.PackConfigAddress);
    assert ChecksumBytes(inner) == 0x17 by { Sum6(inner); }
    ToBytesOfInner(p, inner);
  }

  /** That frame is received back as the packet it encodes. */
  lemma ReceiveSimplePacketLiteral()
    ensures Receive([0xAA, 0xAA, 0xAA, 0xAA, 0x01, 0x16, 0x00, 0x00, 0x00, 0x00, 0x17]) ==
              (Ok(Packet(0x01, CmdCode.PackConfigAddress, 0, [])), 11)
  {
    var p := Packet(0x01, CmdCode.PackConfigAddress, 0, []);
    ConfigAddressFrameLiteral();
    ReceiveToBytes(p, []);
    assert ToBytes(p) + [] == ToBytes(p);
  }

  /** A start marker of FF FF FF AA is rejected. */
  lemma ReceiveBadStartLiteral()
    ensures Receive([0xFF, 0xFF, 0xFF, 0xAA, 0x01, 0x16, 0x00, 0x00, 0x00, 0x00, 0x17]).0 ==
              Err(BadStart([0xFF, 0xFF, 0xFF, 0xAA]))
  {
    var s: seq<byte> := [0xFF, 0xFF, 0xFF, 0xAA, 0x01, 0x16, 0x00, 0x00, 0x00, 0x00, 0x17];
    assert s[..4] == [0xFF, 0xFF, 0xFF, 0xAA];
    assert s[..4] != StartMarker by { assert s[0] != StartMarker[0]; }
    ReceiveBadStart(s);
  }

  /** A checksum byte of FF where 17 is due is rejected. */
  lemma ReceiveBadChecksumLiteral()
    ensures Receive([0xAA, 0xAA, 0xAA, 0xAA, 0x01, 0x16, 0x00, 0x00, 0x00, 0x00, 0xFF]).0 ==
              Err(BadChecksum(0xFF, 0x17))
  {
    var p := Packet(0x01, CmdCode.PackConfigAddress, 0, []);
    var f := ToBytes(p);
    ConfigAddressFrameLiteral();
    assert f[..|f| - 1] + [0xFF] ==
             [0xAA, 0xAA, 0xAA, 0xAA, 0x01, 0x16, 0x00, 0x00, 0x00, 0x00, 0xFF];
    ReceiveCorruptedChecksum(p, 0xFF);
  }
}
