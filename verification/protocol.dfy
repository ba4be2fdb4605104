/**
 * The wire protocol between the uploader and the programmer: one-byte
 * opcodes, the three frames the host sends (SBEGIN, SDATA, SEND), and the
 * single-byte response the host waits for after SBEGIN and after each SDATA.
 */
module Protocol {
  import opened Io
  import Crc16

  /** The opcodes and their wire values. UNKN is what any other byte decodes to. */
  datatype OpCode = SBEGIN | SDATA | SRSP | SEND | ERRO | UNKN
  {
    /** The wire value, the enum's `as u8` cast. Decoding it gives the opcode back. */
    function Value(): (b: byte)
      ensures FromByte(b) == this
    {
      match this
      case SBEGIN => 0x01
      case SDATA => 0x02
      case SRSP => 0x03
      case SEND => 0x04
      case ERRO => 0x05
      case UNKN => 0xFF
    }
  }

  /** `OpCodes::from(u8)`: total; the five defined values decode to their
      opcode and every other byte to UNKN. */
  function FromByte(b: byte): (op: OpCode)
    ensures op == UNKN <==> b == 0x00 || 0x05 < b
    ensures op == SRSP <==> b == 0x03
  {
    match b
    case 0x01 => SBEGIN
    case 0x02 => SDATA
    case 0x03 => SRSP
    case 0x04 => SEND
    case 0x05 => ERRO
    case _ => UNKN
  }

  /** A defined opcode decoded from a byte re-encodes to that byte. */
  lemma FromByteValue(b: byte)
    ensures FromByte(b) != UNKN ==> FromByte(b).Value() == b
  {
  }

  // ------------------------------------------------------------- frames

  /** The frames the host sends. */
  datatype Frame = Begin(verify: bool) | Data(payload: seq<byte>) | End
  {
    function Op(): OpCode
    {
      match this
      case Begin(_) => SBEGIN
      case Data(_) => SDATA
      case End => SEND
    }
  }

  /** The bytes of a frame: SBEGIN is the opcode and the verify flag, SEND the
      opcode alone, SDATA the opcode, the payload unchanged and of any length,
      and the payload's CRC-16/XMODEM high byte first. */
  function Encode(f: Frame): (r: seq<byte>)
    ensures |r| == match f
                   case Begin(_) => 2
                   case Data(p) => |p| + 3
                   case End => 1
    ensures FromByte(r[0]) == f.Op()
    ensures f.Begin? ==> r[1] == if f.verify then 0x01 else 0x00
    ensures f.Data? ==> r[1..|r| - 2] == f.payload
  {
    match f
    case Begin(verify) => [SBEGIN.Value(), if verify then 0x01 else 0x00]
    case Data(payload) =>
      var crc := Crc16.Checksum(payload);
      assert ([SDATA.Value()] + payload + [Crc16.Hi(crc), Crc16.Lo(crc)])[1..|payload| + 1] == payload;
      [SDATA.Value()] + payload + [Crc16.Hi(crc), Crc16.Lo(crc)]
    case End => [SEND.Value()]
  }

  /** The last two bytes of an SDATA frame, read big-endian, are the
      CRC-16/XMODEM of the payload between the opcode and them. */
  lemma DataFrameChecksum(payload: seq<byte>)
    ensures var r := Encode(Data(payload));
            Crc16.Join(r[|r| - 2], r[|r| - 1]) == Crc16.Checksum(payload)
  {
    Crc16.SplitJoin(Crc16.Checksum(payload));
  }

  /** The programmer's reading of a host frame: the opcode fixes the layout,
      and an SDATA frame is accepted only when its trailing two bytes, read
      big-endian, are the CRC of the bytes between the opcode and them. */
  function Decode(bytes: seq<byte>): Option<Frame>
  {
    if bytes == [] then None
    else
      match FromByte(bytes[0])
      case SBEGIN =>
        if |bytes| == 2 && bytes[1] <= 0x01 then Some(Begin(bytes[1] == 0x01)) else None
      case SEND =>
        if |bytes| == 1 then Some(End) else None
      case SDATA =>
        if |bytes| < 3 then None
        else
          var payload := bytes[1..|bytes| - 2];
          if Crc16.Join(bytes[|bytes| - 2], bytes[|bytes| - 1]) == Crc16.Checksum(payload)
          then Some(Data(payload))
          else None
      case _ => None
  }

  /** Every frame the host builds is read back as itself. */
  lemma DecodeEncode(f: Frame)
    ensures Decode(Encode(f)) == Some(f)
  {
    if f.Data? {
      DataFrameChecksum(f.payload);
    }
  }

  /** A byte string the programmer accepts is exactly the encoding of the
      frame it reads, so no two byte strings stand for the same frame. */
  lemma EncodeDecode(bytes: seq<byte>)
    ensures Decode(bytes).Some? ==> Encode(Decode(bytes).value) == bytes
  {
    if Decode(bytes).Some? && Decode(bytes).value.Data? {
      var n := |bytes|;
      var payload := bytes[1..n - 2];
      var crc := Crc16.Checksum(payload);
      assert Crc16.Hi(crc) == bytes[n - 2] && Crc16.Lo(crc) == bytes[n - 1];
      assert bytes == [bytes[0]] + payload + [bytes[n - 2], bytes[n - 1]];
    }
  }

  /** Running the CRC over everything after the opcode of an SDATA frame,
      checksum included, gives zero. */
  lemma DataFrameResidue(payload: seq<byte>)
    ensures Crc16.Checksum(Encode(Data(payload))[1..]) == 0
  {
    var crc := Crc16.Checksum(payload);
    assert Encode(Data(payload))[1..] == payload + [Crc16.Hi(crc), Crc16.Lo(crc)];
    Crc16.Residue(payload);
  }

  // ------------------------------------------------------------- on the link

  /** Writing a whole frame: the link's error is passed on, and a write that
      takes fewer bytes than the frame is an incomplete write. */
  function Transmit(s: LinkState, frame: seq<byte>): (r: (LinkState, Result<()>))
    ensures r.1.Ok? <==> s.TakesWhole(|frame|)
    ensures r.1.Ok? ==> r.0.events == s.events + [Wrote(frame, s.timeoutMs)]
    ensures r.1.Err? && s.writes[0].Accept? ==>
              r.1.error == IncompleteWrite(s.writes[0].limit, |frame|)
              && r.0.events == s.events + [Wrote(frame[..s.writes[0].limit], s.timeoutMs)]
    ensures r.1.Err? && s.writes[0].Refuse? ==> r.1.error == Os(s.writes[0].code) && r.0.events == s.events
    ensures r.0.replies == s.replies && r.0.timeoutMs == s.timeoutMs
    ensures r.0.writes == if s.writes == [] then [] else s.writes[1..]
  {
    var (s', written) := s.Write(frame);
    match written
    case Err(e) => (s', Err(e))
    case Ok(n) =>
      assert frame[..|frame|] == frame;
      if n != |frame| then (s', Err(IncompleteWrite(n, |frame|))) else (s', Ok(()))
  }

  /** Waiting for the programmer's answer: an empty read means the
      connection closed, a failed read is passed on, and otherwise the answer
      is the first byte received, decoded; any further bytes are dropped. */
  function Response(s: LinkState): (r: (LinkState, Result<OpCode>))
    ensures r.0 == s.Read().0
    ensures s.Read().1.Err? ==> r.1 == Err(s.Read().1.error)
    ensures s.Read().1 == Ok([]) ==> r.1 == Err(ConnectionClosed)
    ensures r.1.Ok? <==> s.Read().1.Ok? && s.Read().1.value != []
    ensures r.1.Ok? ==> r.1.value == FromByte(s.Read().1.value[0])
  {
    var (s', got) := s.Read();
    match got
    case Err(e) => (s', Err(e))
    case Ok(data) => if |data| == 0 then (s', Err(ConnectionClosed)) else (s', Ok(FromByte(data[0])))
  }

  /** `send_sbegin`: builds `[SBEGIN, verify]` in a scratch buffer and writes it. */
  method SendSbegin(link: Link, verify: bool) returns (r: Result<()>)
    modifies link
    ensures (link.State(), r) == Transmit(old(link.State()), Encode(Begin(verify)))
  {
    var buf := new byte[2];
    buf[0] := SBEGIN.Value();
    buf[1] := if verify then 0x01 else 0x00;
    assert buf[..] == Encode(Begin(verify));
    var written := link.Write(buf[..]);
    match written {
      case Err(e) => r := Err(e);
      case Ok(n) => r := if n != 2 then Err(IncompleteWrite(n, 2)) else Ok(());
    }
  }

  /** `send_send`: builds `[SEND]` in a scratch buffer and writes it. */
  method SendSend(link: Link) returns (r: Result<()>)
    modifies link
    ensures (link.State(), r) == Transmit(old(link.State()), Encode(End))
  {
    var buf := new byte[1];
    buf[0] := SEND.Value();
    assert buf[..] == Encode(End);
    var written := link.Write(buf[..]);
    match written {
      case Err(e) => r := Err(e);
      case Ok(n) => r := if n != 1 then Err(IncompleteWrite(n, 1)) else Ok(());
    }
  }

  /** `send_sdata`: appends the opcode, the data and the two CRC bytes to an
      empty buffer and writes it. The data's length is not checked. */
  method SendSdata(link: Link, data: seq<byte>) returns (r: Result<()>)
    modifies link
    ensures (link.State(), r) == Transmit(old(link.State()), Encode(Data(data)))
  {
    var buf: seq<byte> := [];
    buf := buf + [SDATA.Value()];
    buf := buf + data;
    var crc := Crc16.Checksum(data);
    buf := buf + [Crc16.Hi(crc), Crc16.Lo(crc)];
    assert buf == Encode(Data(data));
    var written := link.Write(buf);
    match written {
      case Err(e) => r := Err(e);
      case Ok(n) => r := if n != |buf| then Err(IncompleteWrite(n, |buf|)) else Ok(());
    }
  }

  /** `read_response`: one read into a scratch buffer; decodes its first byte. */
  method ReadResponse(link: Link) returns (r: Result<OpCode>)
    modifies link
    ensures (link.State(), r) == Response(old(link.State()))
  {
    var got := link.Read();
    match got {
      case Err(e) => r := Err(e);
      case Ok(data) =>
        if |data| == 0 {
          r := Err(ConnectionClosed);
        } else {
          r := Ok(FromByte(data[0]));
        }
    }
  }

  // ------------------------------------------------------------- as written

  /** The length of the scratch buffer `send_sbegin` and `send_send` build
      their frame in. */
  const ScratchLen: nat := 1000

  /** `send_sbegin` and `send_send` as written: like `Transmit`, except that
      a short write reports the scratch buffer's length as the expected
      count. */
  function TransmitAsWritten(s: LinkState, frame: seq<byte>): (r: (LinkState, Result<()>))
    ensures r.1.Ok? <==> s.TakesWhole(|frame|)
    ensures r.1.Err? && s.writes[0].Accept? ==> r.1.error == IncompleteWrite(s.writes[0].limit, ScratchLen)
    ensures r.1.Err? && s.writes[0].Refuse? ==> r.1.error == Os(s.writes[0].code) && r.0.events == s.events
  {
    var (s', written) := s.Write(frame);
    match written
    case Err(e) => (s', Err(e))
    case Ok(n) => if n != |frame| then (s', Err(IncompleteWrite(n, ScratchLen))) else (s', Ok(()))
  }

  /** For SBEGIN and SEND, the code as written and `Transmit` leave the link
      alike and agree on success and on a refused write; they differ exactly
      on a short write, where the code names 1000 expected bytes instead of
      the frame's 2 or 1. */
  lemma ShortWriteMisreported(s: LinkState, frame: seq<byte>, verify: bool)
    requires frame == Encode(Begin(verify)) || frame == Encode(End)
    ensures TransmitAsWritten(s, frame).0 == Transmit(s, frame).0
    ensures var short := s.writes != [] && s.writes[0].Accept? && s.writes[0].limit < |frame|;
            && (TransmitAsWritten(s, frame).1 == Transmit(s, frame).1 <==> !short)
            && (short ==> TransmitAsWritten(s, frame).1 == Err(IncompleteWrite(s.writes[0].limit, ScratchLen)))
  {
  }
}
