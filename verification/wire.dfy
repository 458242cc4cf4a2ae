/**
  The move message exchanged between peers (network.c, network.h): six
  unsigned chars, the message type followed by the origin row and column, the
  destination row and column and the promotion piece code. Whether the peer
  connection is up, and whether a receive callback is installed, are
  parameters; the transport itself is not modelled.
 */
module Wire {
  import opened Types

  /** MSG_MOVE, the first member of MessageType. */
  const MsgMove: Byte := 1

  /** sizeof(MoveMessage): six one-byte members, no padding. */
  const MoveMessageSize: int := 6

  /** The five values a move message carries, as the receive callback gets them. */
  datatype MoveFields = MoveFields(fromRow: int, fromCol: int, toRow: int, toCol: int, promotion: int)

  /** The byte holding value v, counted up from zero so that its value is known. */
  function ByteOfValue(v: int): (r: Byte)
    requires 0 <= v < 256
    ensures r as int == v
    decreases v
  {
    if v == 0 then 0
    else
      var r := ByteOfValue(v - 1);
      Increment(r);
      r + 1
  }

  lemma Increment(r: Byte)
    requires r as int < 255
    ensures (r + 1) as int == r as int + 1
  {
  }

  /** The conversion of an int to unsigned char: the byte whose value is the int modulo 256. */
  function ToByte(n: int): (r: Byte)
    ensures r as int == n % 256
  {
    ByteOfValue(n % 256)
  }

  /** The message NetworkSendMove fills in, member by member. */
  function PackMove(fromRow: int, fromCol: int, toRow: int, toCol: int, promotion: int): (m: seq<Byte>)
    ensures |m| == MoveMessageSize && m[0] == MsgMove
  {
    [MsgMove, ToByte(fromRow), ToByte(fromCol), ToByte(toRow), ToByte(toCol), ToByte(promotion)]
  }

  /**
    NetworkSendMove: nothing is sent unless an agent exists and the connection
    is up (`connected`); otherwise the packed message is handed to the transport.
   */
  function SendMove(connected: bool, fromRow: int, fromCol: int, toRow: int, toCol: int, promotion: int): (sent: Option<seq<Byte>>)
    ensures sent.Some? <==> connected
    ensures sent.Some? ==> |sent.value| == MoveMessageSize && sent.value[0] == MsgMove
  {
    if !connected then None else Some(PackMove(fromRow, fromCol, toRow, toCol, promotion))
  }

  /**
    on_recv: a datagram of at least sizeof(MoveMessage) bytes whose type byte
    is MSG_MOVE is passed to the installed callback as five unsigned values;
    anything else is dropped.
   */
  function OnRecv(data: seq<Byte>, hasCallback: bool): (r: Option<MoveFields>)
    ensures r.Some? <==> |data| >= MoveMessageSize && data[0] == MsgMove && hasCallback
    ensures r.Some? ==> && 0 <= r.value.fromRow < 256 && 0 <= r.value.fromCol < 256
                        && 0 <= r.value.toRow < 256 && 0 <= r.value.toCol < 256
                        && 0 <= r.value.promotion < 256
  {
    if |data| >= MoveMessageSize && data[0] == MsgMove && hasCallback then
      Some(MoveFields(data[1] as int, data[2] as int, data[3] as int, data[4] as int, data[5] as int))
    else None
  }

  /** A received message delivers the sent values reduced modulo 256. */
  lemma ReceiveSent(connected: bool, fromRow: int, fromCol: int, toRow: int, toCol: int, promotion: int)
    requires connected
    ensures var sent := SendMove(connected, fromRow, fromCol, toRow, toCol, promotion);
      OnRecv(sent.value, true) == Some(MoveFields(fromRow % 256, fromCol % 256, toRow % 256, toCol % 256, promotion % 256))
  {
  }

  /** Values that fit an unsigned char, as board coordinates and piece codes do, arrive unchanged. */
  lemma ReceiveSentSmall(fromRow: int, fromCol: int, toRow: int, toCol: int, promotion: int)
    requires 0 <= fromRow < 256 && 0 <= fromCol < 256 && 0 <= toRow < 256 && 0 <= toCol < 256
    requires 0 <= promotion < 256
    ensures OnRecv(PackMove(fromRow, fromCol, toRow, toCol, promotion), true)
      == Some(MoveFields(fromRow, fromCol, toRow, toCol, promotion))
  {
    ReceiveSent(true, fromRow, fromCol, toRow, toCol, promotion);
  }

  /** Bytes after the six of the message are ignored. */
  lemma TrailingBytesIgnored(data: seq<Byte>, extra: seq<Byte>, hasCallback: bool)
    requires |data| >= MoveMessageSize
    ensures OnRecv(data + extra, hasCallback) == OnRecv(data, hasCallback)
  {
    assert (data + extra)[..MoveMessageSize] == data[..MoveMessageSize];
  }
}
