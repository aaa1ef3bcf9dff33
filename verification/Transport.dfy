// The send and receive paths of client/src/protocol.c on byte buffers in place: one
// message, and one UDP datagram.

module Transport {
  import opened Words
  import opened Codec

  // ---------------------------------------------------------------- in-place conversion

  method Swap16At(a: array<byte>, at: nat, o: Order)
    requires at + 2 <= a.Length
    modifies a
    ensures a[..] == Swap16(old(a[..]), at, o)
  {
    if o.Little? {
      a[at], a[at + 1] := a[at + 1], a[at];
    }
  }

  method Swap32At(a: array<byte>, at: nat, o: Order)
    requires at + 4 <= a.Length
    modifies a
    ensures a[..] == Swap32(old(a[..]), at, o)
  {
    if o.Little? {
      a[at], a[at + 1], a[at + 2], a[at + 3] := a[at + 3], a[at + 2], a[at + 1], a[at];
    }
  }

  // The switch over the message type in send_message.
  method ConvertFields(a: array<byte>, t: int, o: Order)
    requires FixedSize(t) <= a.Length
    modifies a
    ensures a[..] == SwapFields(old(a[..]), t, o)
  {
    hide Swap16, Swap32;
    match t {
      case 1 =>
        Swap16At(a, 8, o);
        Swap32At(a, 4, o);
      case 2 =>
        Swap32At(a, 4, o);
      case 5 =>
        Swap32At(a, 4, o);
      case 6 =>
        Swap32At(a, 4, o);
        Swap16At(a, 8, o);
        Swap16At(a, 10, o);
        Swap16At(a, 12, o);
      case 9 =>
        Swap32At(a, 4, o);
        Swap16At(a, 8, o);
        Swap16At(a, 10, o);
      case _ =>
    }
  }

  method Copy(from: array<byte>, n: nat, size: nat) returns (to: array<byte>)
    requires n <= from.Length && n <= size
    ensures fresh(to) && to[..] == from[..n] + Zeros(size - n)
  {
    to := new byte[size](_ => 0);
    forall i | 0 <= i < n {
      to[i] := from[i];
    }
  }

  // htons of a value stored in the buffer.
  method Put16(a: array<byte>, at: nat, v: uint16)
    requires at + 2 <= a.Length
    modifies a
    ensures a[..] == old(a[..at]) + U16(v, Big) + old(a[at + 2..])
  {
    var b := U16(v, Big);
    a[at], a[at + 1] := b[0], b[1];
  }

  // send_message
  method SendMessage(msg: array<byte>, o: Order) returns (sent: seq<byte>)
    requires CanSend(msg[..], o)
    ensures sent == Encode(msg[..], o)
  {
    hide Read16, SwapFields, Zeros, U16;
    var t, length := Read16(msg[..], 0, o), Read16(msg[..], 2, o);
    var messageSize := (HEADER + length) % 0x1_0000;
    var paddedSize := Padded(messageSize);
    var buffer := Copy(msg, messageSize, paddedSize);
    ghost var copy := buffer[..];
    Put16(buffer, 0, t);
    Put16(buffer, 2, length);
    assert buffer[..] == Header(t, length, Big) + copy[HEADER..];
    ConvertFields(buffer, t, o);
    sent := buffer[..];
  }

  // handle_incoming_message: `msg` holds a frame whose header is already in host order.
  method HandleIncoming(msg: array<byte>, o: Order, ghost wire: seq<byte>) returns (e: Event)
    requires HEADER <= |wire| && |wire| == HEADER + Read16(wire, 2, Big)
    requires msg[..] == SwapHeader(wire, o)
    modifies msg
    ensures e == Handle(wire, Read16(wire, 0, Big), Read16(wire, 2, Big), o)
  {
    HeaderInHostOrder(wire, o);
    var t, length := Read16(msg[..], 0, o), Read16(msg[..], 2, o);
    if t == 0 || t > 10 {
      return UnknownType;
    }
    if t == 6 {
      if length < 10 {
        return Ignored;
      }
      ConvertFields(msg, t, o);
      FieldsInHostOrder(wire, o);
      if length != 10 + Read16(msg[..], 10, o) + Read16(msg[..], 12, o) {
        return Ignored;
      }
      return Delivered(msg[..]);
    }
    var ok := match t
      case 1 => length == 6
      case 2 => length == 4
      case 5 => length >= 4
      case 7 => length == 0
      case 8 => length == 0
      case 9 => length >= 12
      case 10 => length == 0
      case _ => true;
    if !ok {
      return Ignored;
    }
    ConvertFields(msg, t, o);
    return Delivered(msg[..]);
  }

  lemma HeaderInHostOrder(wire: seq<byte>, o: Order)
    requires HEADER <= |wire|
    ensures Read16(SwapHeader(wire, o), 0, o) == Read16(wire, 0, Big)
    ensures Read16(SwapHeader(wire, o), 2, o) == Read16(wire, 2, Big)
  {
  }

  lemma FieldsInHostOrder(wire: seq<byte>, o: Order)
    requires 14 <= |wire|
    ensures Read16(SwapFields(SwapHeader(wire, o), 6, o), 10, o) == Read16(wire, 10, Big)
    ensures Read16(SwapFields(SwapHeader(wire, o), 6, o), 12, o) == Read16(wire, 12, Big)
  {
  }

  // handle_udp_message, after recv returned `size` bytes.
  method HandleUdp(buffer: array<byte>, size: nat, o: Order) returns (e: Event)
    requires size <= buffer.Length
    ensures e == Receive(buffer[..size], o)
  {
    if size < HEADER {
      return Ignored;
    }
    var length := Read16(buffer[..size], 2, Big);
    var expected := HEADER + length;
    if size != Padded(expected) {
      return Ignored;
    }
    var msg := Copy(buffer, expected, expected);
    ghost var wire := buffer[..expected];
    assert wire == buffer[..size][..expected] && msg[..] == wire;
    ReadPrefix(buffer[..size], 0, expected);
    ReadPrefix(buffer[..size], 2, expected);
    Swap16At(msg, 0, o);
    Swap16At(msg, 2, o);
    e := HandleIncoming(msg, o, wire);
  }
}
