// The datagram format of client/src/protocol.c: messages lie in memory as C structs in
// the host's byte order, send_message and handle_incoming_message swap their fields in
// place, and on the wire every field is big-endian and the whole is padded to 4 bytes.

module Codec {
  import opened Words

  // The byte order of a machine.
  datatype Order = Little | Big

  const HEADER := 4

  function U16(v: uint16, o: Order): (b: seq<byte>)
    ensures |b| == 2
  {
    if o.Big? then [v / 256, v % 256] else [v % 256, v / 256]
  }

  function U32(v: uint32, o: Order): (b: seq<byte>)
    ensures |b| == 4
  {
    var h, l := v / 0x1_0000, v % 0x1_0000;
    if o.Big? then U16(h, o) + U16(l, o) else U16(l, o) + U16(h, o)
  }

  function Read16(b: seq<byte>, at: nat, o: Order): (v: uint16)
    requires at + 2 <= |b|
  {
    if o.Big? then b[at] as int * 256 + b[at + 1] else b[at + 1] as int * 256 + b[at]
  }

  function Read32(b: seq<byte>, at: nat, o: Order): (v: uint32)
    requires at + 4 <= |b|
  {
    if o.Big? then Read16(b, at, o) as int * 0x1_0000 + Read16(b, at + 2, o)
    else Read16(b, at + 2, o) as int * 0x1_0000 + Read16(b, at, o)
  }

  // ---------------------------------------------------------------- messages

  datatype Message =
    | Column(sequence: uint32, column: uint16)
    | ColumnAck(sequence: uint32)
    | Heartbeat(data: seq<byte>)
    | HeartbeatAck(data: seq<byte>)
    | Error(code: uint32, text: seq<byte>)
    | Registration(address: uint32, port: uint16, nameLen: uint16, passLen: uint16, data: seq<byte>)
    | RegistrationAck
    | RegistrationErrorAck
    | PeerSelect(address: uint32, port: uint16, start: uint16, name: seq<byte>)
    | PeerSelectAck

  // MESSAGE_..._TYPE
  function TypeOf(m: Message): uint16 {
    match m
    case Column(_, _) => 1
    case ColumnAck(_) => 2
    case Heartbeat(_) => 3
    case HeartbeatAck(_) => 4
    case Error(_, _) => 5
    case Registration(_, _, _, _, _) => 6
    case RegistrationAck => 7
    case RegistrationErrorAck => 8
    case PeerSelect(_, _, _, _) => 9
    case PeerSelectAck => 10
  }

  // What follows the header in memory.
  function Body(m: Message, o: Order): seq<byte> {
    match m
    case Column(sequence, column) => U32(sequence, o) + U16(column, o)
    case ColumnAck(sequence) => U32(sequence, o)
    case Heartbeat(data) => data
    case HeartbeatAck(data) => data
    case Error(code, text) => U32(code, o) + text
    case Registration(address, port, nameLen, passLen, data) =>
      U32(address, o) + U16(port, o) + U16(nameLen, o) + U16(passLen, o) + data
    case RegistrationAck => []
    case RegistrationErrorAck => []
    case PeerSelect(address, port, start, name) => U32(address, o) + U16(port, o) + U16(start, o) + name
    case PeerSelectAck => []
  }

  function Length(m: Message): nat {
    |Body(m, Big)|
  }

  // A message whose length fits the length field.
  predicate Fits(m: Message) {
    Length(m) <= 0xFFFF
  }

  type Datagram = m: Message | Fits(m) witness ColumnAck(0)

  // A message whose size with its header fits the uint16 in which send_message keeps it.
  predicate Sendable(m: Message) {
    Length(m) <= 65531
  }

  function Header(t: uint16, length: uint16, o: Order): (h: seq<byte>)
    ensures |h| == HEADER
  {
    U16(t, o) + U16(length, o)
  }

  // The struct in the memory of a machine of order o.
  function Struct(m: Message, o: Order): (b: seq<byte>)
    requires Fits(m)
  {
    Header(TypeOf(m), Length(m), o) + Body(m, o)
  }

  function Padded(n: nat): (p: nat)
    ensures n <= p < n + 4 && p % 4 == 0
  {
    if n % 4 == 0 then n else n + (4 - n % 4)
  }

  function Zeros(n: nat): (z: seq<byte>)
    ensures |z| == n && forall i :: 0 <= i < n ==> z[i] == 0
  {
    if n == 0 then [] else Zeros(n - 1) + [0]
  }

  // The reference format: everything big-endian, padded with zeros to a multiple of 4.
  function Wire(m: Message): (w: seq<byte>)
    requires Fits(m)
    ensures |w| == Padded(HEADER + Length(m))
  {
    BodyLength(m, Big);
    Struct(m, Big) + Zeros(Padded(HEADER + Length(m)) - (HEADER + Length(m)))
  }

  lemma BodyLength(m: Message, o: Order)
    ensures |Body(m, o)| == Length(m)
  {
  }

  // ---------------------------------------------------------------- swapping in place

  // htons/ntohs and htonl/ntohl of the field at `at`, on a machine of order o.
  function Swap16(b: seq<byte>, at: nat, o: Order): (r: seq<byte>)
    requires at + 2 <= |b|
    ensures |r| == |b|
  {
    if o.Big? then b else b[at := b[at + 1]][at + 1 := b[at]]
  }

  function Swap32(b: seq<byte>, at: nat, o: Order): (r: seq<byte>)
    requires at + 4 <= |b|
    ensures |r| == |b|
  {
    if o.Big? then b
    else b[at := b[at + 3]][at + 1 := b[at + 2]][at + 2 := b[at + 1]][at + 3 := b[at]]
  }

  // The size of the fields send_message converts for a type, header included.
  function FixedSize(t: int): nat {
    match t
    case 1 => 10
    case 2 => 8
    case 5 => 8
    case 6 => 14
    case 9 => 12
    case _ => 4
  }

  // The conversion of the typed fields, in both directions.
  function SwapFields(b: seq<byte>, t: int, o: Order): (r: seq<byte>)
    requires FixedSize(t) <= |b|
    ensures |r| == |b|
  {
    match t
    case 1 => Swap32(Swap16(b, 8, o), 4, o)
    case 2 => Swap32(b, 4, o)
    case 5 => Swap32(b, 4, o)
    case 6 => Swap16(Swap16(Swap16(Swap32(b, 4, o), 8, o), 10, o), 12, o)
    case 9 => Swap16(Swap16(Swap32(b, 4, o), 8, o), 10, o)
    case _ => b
  }

  function SwapHeader(b: seq<byte>, o: Order): (r: seq<byte>)
    requires HEADER <= |b|
    ensures |r| == |b|
  {
    Swap16(Swap16(b, 0, o), 2, o)
  }

  // The uint16 in which send_message keeps the size of the struct.
  function MessageSize(mem: seq<byte>, o: Order): uint16
    requires HEADER <= |mem|
  {
    (HEADER + Read16(mem, 2, o)) % 0x1_0000
  }

  // What send_message needs to stay within the struct and its own buffer: as many bytes as
  // it copies, and a padded copy with room for the fields of the type.
  predicate CanSend(mem: seq<byte>, o: Order) {
    && HEADER <= |mem|
    && MessageSize(mem, o) <= |mem| && FixedSize(Read16(mem, 0, o)) <= Padded(MessageSize(mem, o))
  }

  // What send_message puts on the wire for the struct at the start of `mem`: the copy, its
  // header written anew, its fields converted.
  function Encode(mem: seq<byte>, o: Order): seq<byte>
    requires CanSend(mem, o)
  {
    var t, size := Read16(mem, 0, o), MessageSize(mem, o);
    var b := mem[..size] + Zeros(Padded(size) - size);
    SwapFields(Header(t, Read16(mem, 2, o), Big) + b[HEADER..], t, o)
  }

  // ---------------------------------------------------------------- receiving

  // What handle_incoming_message does with a message: hand it to a callback, answer
  // with an error message, or ignore it.
  datatype Event = Delivered(mem: seq<byte>) | UnknownType | Ignored

  // The length guards, on the header and the network-order fields still to be swapped.
  predicate Guard(t: int, length: int, wire: seq<byte>)
    requires |wire| == HEADER + length
  {
    match t
    case 1 => length == 6
    case 2 => length == 4
    case 3 => true
    case 4 => true
    case 5 => length >= 4
    case 6 => length >= 10 && length == 10 + Read16(wire, 10, Big) + Read16(wire, 12, Big)
    case 7 => length == 0
    case 8 => length == 0
    case 9 => length >= 12
    case 10 => length == 0
    case _ => false
  }

  // Header and length check of the UDP path, then handle_incoming_message.
  function Receive(packet: seq<byte>, o: Order): Event {
    if |packet| < HEADER then Ignored
    else
      var t, length := Read16(packet, 0, Big), Read16(packet, 2, Big);
      if |packet| != Padded(HEADER + length) then Ignored
      else Handle(packet[..HEADER + length], t, length, o)
  }

  function Handle(wire: seq<byte>, t: uint16, length: uint16, o: Order): Event
    requires |wire| == HEADER + length
  {
    if t == 0 || t > 10 then UnknownType
    else if !Guard(t, length, wire) then Ignored
    else Delivered(SwapFields(SwapHeader(wire, o), t, o))
  }

  // ---------------------------------------------------------------- theorems

  // The guard, as a condition on the message itself.
  predicate Acceptable(m: Message) {
    match m
    case Registration(_, _, nameLen, passLen, data) => |data| == nameLen + passLen
    case PeerSelect(_, _, _, name) => |name| >= 4
    case _ => true
  }

  lemma ReadU16(a: seq<byte>, v: uint16, c: seq<byte>, o: Order)
    ensures Read16(a + U16(v, o) + c, |a|, o) == v
  {
  }

  // On a machine of order o a swap leads from host order to network order, or back.
  predicate Flips(o: Order, p: Order, q: Order) {
    (p == o && q == Big) || (p == Big && q == o)
  }

  lemma Field16(b: seq<byte>, a: seq<byte>, v: uint16, c: seq<byte>, o: Order, p: Order, q: Order)
    requires b == a + U16(v, p) + c && Flips(o, p, q)
    ensures Swap16(b, |a|, o) == a + U16(v, q) + c
  {
  }

  lemma Field32(b: seq<byte>, a: seq<byte>, v: uint32, c: seq<byte>, o: Order, p: Order, q: Order)
    requires b == a + U32(v, p) + c && Flips(o, p, q)
    ensures Swap32(b, |a|, o) == a + U32(v, q) + c
  {
  }

  lemma SwapHeaderBytes(t: uint16, length: uint16, rest: seq<byte>, o: Order, p: Order, q: Order)
    requires Flips(o, p, q)
    ensures SwapHeader(Header(t, length, p) + rest, o) == Header(t, length, q) + rest
  {
    hide U16, Swap16;
    var b := Header(t, length, p) + rest;
    Field16(b, [], t, U16(length, p) + rest, o, p, q);
    Field16(Swap16(b, 0, o), U16(t, q), length, rest, o, p, q);
  }

  // One field further: bytes already in order q, then a field still in order p.
  lemma Next16(a: seq<byte>, v: uint16, c: seq<byte>, o: Order, p: Order, q: Order)
    requires Flips(o, p, q)
    ensures Swap16(a + (U16(v, p) + c), |a|, o) == a + U16(v, q) + c
  {
    hide U16, Swap16;
    assert a + (U16(v, p) + c) == a + U16(v, p) + c;
    Field16(a + (U16(v, p) + c), a, v, c, o, p, q);
  }

  lemma Next32(a: seq<byte>, v: uint32, c: seq<byte>, o: Order, p: Order, q: Order)
    requires Flips(o, p, q)
    ensures Swap32(a + (U32(v, p) + c), |a|, o) == a + U32(v, q) + c
  {
    hide U32, Swap32;
    assert a + (U32(v, p) + c) == a + U32(v, p) + c;
    Field32(a + (U32(v, p) + c), a, v, c, o, p, q);
  }

  // Grouped from the right as the swaps find the fields, from the left as they leave them.
  lemma SplitRegistration(h: seq<byte>, m: Message, tail: seq<byte>, p: Order)
    requires m.Registration?
    ensures h + Body(m, p) + tail
      == h + (U32(m.address, p) + (U16(m.port, p) + (U16(m.nameLen, p) + (U16(m.passLen, p) + (m.data + tail)))))
    ensures h + Body(m, p) + tail
      == h + U32(m.address, p) + U16(m.port, p) + U16(m.nameLen, p) + U16(m.passLen, p) + (m.data + tail)
  {
    hide U16, U32;
  }

  lemma SwapRegistration(h: seq<byte>, m: Message, tail: seq<byte>, o: Order, p: Order, q: Order)
    requires |h| == HEADER && m.Registration? && Flips(o, p, q)
    ensures SwapFields(h + Body(m, p) + tail, 6, o) == h + Body(m, q) + tail
  {
    hide U16, U32, Swap16, Swap32, Body;
    var r3 := m.data + tail;
    var r2 := U16(m.passLen, p) + r3;
    var r1 := U16(m.nameLen, p) + r2;
    var a1 := h + U32(m.address, q);
    var a2 := a1 + U16(m.port, q);
    SplitRegistration(h, m, tail, p);
    Next32(h, m.address, U16(m.port, p) + r1, o, p, q);
    Next16(a1, m.port, r1, o, p, q);
    Next16(a2, m.nameLen, r2, o, p, q);
    Next16(a2 + U16(m.nameLen, q), m.passLen, r3, o, p, q);
    SplitRegistration(h, m, tail, q);
  }

  lemma SplitPeerSelect(h: seq<byte>, m: Message, tail: seq<byte>, p: Order)
    requires m.PeerSelect?
    ensures h + Body(m, p) + tail == h + (U32(m.address, p) + (U16(m.port, p) + (U16(m.start, p) + (m.name + tail))))
    ensures h + Body(m, p) + tail == h + U32(m.address, p) + U16(m.port, p) + U16(m.start, p) + (m.name + tail)
  {
    hide U16, U32;
  }

  lemma SwapPeerSelect(h: seq<byte>, m: Message, tail: seq<byte>, o: Order, p: Order, q: Order)
    requires |h| == HEADER && m.PeerSelect? && Flips(o, p, q)
    ensures SwapFields(h + Body(m, p) + tail, 9, o) == h + Body(m, q) + tail
  {
    hide U16, U32, Swap16, Swap32, Body;
    var r2 := m.name + tail;
    var r1 := U16(m.start, p) + r2;
    var a1 := h + U32(m.address, q);
    SplitPeerSelect(h, m, tail, p);
    Next32(h, m.address, U16(m.port, p) + r1, o, p, q);
    Next16(a1, m.port, r1, o, p, q);
    Next16(a1 + U16(m.port, q), m.start, r2, o, p, q);
    SplitPeerSelect(h, m, tail, q);
  }

  // The typed fields of every message type, from one order to the other.
  lemma SwapBody(h: seq<byte>, m: Message, tail: seq<byte>, o: Order, p: Order, q: Order)
    requires |h| == HEADER && Flips(o, p, q)
    ensures SwapFields(h + Body(m, p) + tail, TypeOf(m), o) == h + Body(m, q) + tail
  {
    hide U16, U32, Swap16, Swap32;
    var b := h + Body(m, p) + tail;
    match m
    case Column(sequence, column) =>
      Field16(b, h + U32(sequence, p), column, tail, o, p, q);
      Field32(Swap16(b, 8, o), h, sequence, U16(column, q) + tail, o, p, q);
    case ColumnAck(sequence) =>
      Field32(b, h, sequence, tail, o, p, q);
    case Error(code, text) =>
      assert b == h + U32(code, p) + (text + tail);
      Field32(b, h, code, text + tail, o, p, q);
    case Registration(_, _, _, _, _) =>
      SwapRegistration(h, m, tail, o, p, q);
    case PeerSelect(_, _, _, _) =>
      SwapPeerSelect(h, m, tail, o, p, q);
    case _ =>
  }

  lemma HeaderReads(t: uint16, length: uint16, rest: seq<byte>, o: Order)
    ensures Read16(Header(t, length, o) + rest, 0, o) == t
    ensures Read16(Header(t, length, o) + rest, 2, o) == length
  {
    hide U16, Read16;
    ReadU16([], t, U16(length, o) + rest, o);
    assert [] + U16(t, o) + (U16(length, o) + rest) == Header(t, length, o) + rest;
    ReadU16(U16(t, o), length, rest, o);
  }

  lemma StructReads(m: Message, extra: seq<byte>, o: Order)
    requires Fits(m)
    ensures |Struct(m, o)| == HEADER + Length(m) && FixedSize(TypeOf(m)) <= HEADER + Length(m)
    ensures Read16(Struct(m, o) + extra, 0, o) == TypeOf(m) && Read16(Struct(m, o) + extra, 2, o) == Length(m)
  {
    hide U16, Read16;
    BodyLength(m, o);
    HeaderReads(TypeOf(m), Length(m), Body(m, o) + extra, o);
    assert Struct(m, o) + extra == Header(TypeOf(m), Length(m), o) + (Body(m, o) + extra);
  }

  // Converting all the fields of a struct leads from one byte order to the other.
  lemma SwapStruct(m: Message, pad: seq<byte>, o: Order, p: Order, q: Order)
    requires Fits(m) && Flips(o, p, q)
    ensures |Struct(m, p)| >= HEADER && FixedSize(TypeOf(m)) <= |Struct(m, p) + pad|
    ensures SwapFields(SwapHeader(Struct(m, p) + pad, o), TypeOf(m), o) == Struct(m, q) + pad
  {
    hide Header, Body, SwapHeader, SwapFields, FixedSize, Length;
    var t, n := TypeOf(m), Length(m);
    StructReads(m, [], p);
    assert Struct(m, p) + pad == Header(t, n, p) + (Body(m, p) + pad);
    SwapHeaderBytes(t, n, Body(m, p) + pad, o, p, q);
    assert Header(t, n, q) + (Body(m, p) + pad) == Header(t, n, q) + Body(m, p) + pad;
    SwapBody(Header(t, n, q), m, pad, o, p, q);
  }

  // send_message turns the struct of any machine into the one wire format, whatever
  // follows it in memory.
  lemma EncodeIsWire(m: Message, extra: seq<byte>, o: Order)
    requires Sendable(m)
    ensures CanSend(Struct(m, o) + extra, o)
    ensures Encode(Struct(m, o) + extra, o) == Wire(m)
  {
    hide Header, Body, Read16, SwapFields, FixedSize, Length, Zeros, Struct, Wire, Padded;
    var size := HEADER + Length(m);
    var pad := Zeros(Padded(size) - size);
    StructReads(m, extra, o);
    CopyOfStruct(m, extra, pad, o);
    SwapCopy(m, o);
  }

  // What send_message copies of a struct, and what follows the header of the copy.
  lemma CopyOfStruct(m: Message, extra: seq<byte>, pad: seq<byte>, o: Order)
    requires Fits(m)
    ensures |Struct(m, o)| == HEADER + Length(m) && (Struct(m, o) + extra)[..HEADER + Length(m)] == Struct(m, o)
    ensures (Struct(m, o) + pad)[HEADER..] == Body(m, o) + pad
  {
    hide Header, Body, Length;
    BodyLength(m, o);
    assert Struct(m, o) + pad == Header(TypeOf(m), Length(m), o) + (Body(m, o) + pad);
  }

  lemma SwapCopy(m: Message, o: Order)
    requires Fits(m)
    ensures var size := HEADER + Length(m);
      var pad := Zeros(Padded(size) - size);
      && FixedSize(TypeOf(m)) <= HEADER + |Body(m, o) + pad|
      && SwapFields(Header(TypeOf(m), Length(m), Big) + (Body(m, o) + pad), TypeOf(m), o) == Wire(m)
  {
    hide Header, Body, SwapFields, FixedSize, Length, Zeros, Padded;
    var size := HEADER + Length(m);
    var pad := Zeros(Padded(size) - size);
    var h := Header(TypeOf(m), Length(m), Big);
    StructReads(m, [], o);
    BodyLength(m, o);
    assert h + (Body(m, o) + pad) == h + Body(m, o) + pad;
    SwapBody(h, m, pad, o, o, Big);
  }

  // A longer message is truncated to its header, because the size wraps, and ignored by
  // every receiver: 65531 is the exact limit.
  lemma OverlongIsLost(mem: seq<byte>, o: Order, receiver: Order)
    requires CanSend(mem, o) && Read16(mem, 2, o) > 65531
    ensures Encode(mem, o) == Header(Read16(mem, 0, o), Read16(mem, 2, o), Big)
    ensures Receive(Encode(mem, o), receiver) == Ignored
  {
    hide Header, Read16, Handle;
    var t, n := Read16(mem, 0, o), Read16(mem, 2, o);
    assert Header(t, n, Big) + [] == Header(t, n, Big);
    HeaderReads(t, n, [], Big);
  }

  // The length guard read off the wire is the condition on the message.
  lemma GuardIsAcceptable(m: Message)
    requires Fits(m)
    ensures |Struct(m, Big)| == HEADER + Length(m)
    ensures Guard(TypeOf(m), Length(m), Struct(m, Big)) <==> Acceptable(m)
  {
    BodyLength(m, Big);
    if m.Registration? {
      var h := Header(6, Length(m), Big) + U32(m.address, Big) + U16(m.port, Big);
      var w := Struct(m, Big);
      hide U16, U32, Read16;
      assert w == h + U16(m.nameLen, Big) + (U16(m.passLen, Big) + m.data);
      ReadU16(h, m.nameLen, U16(m.passLen, Big) + m.data, Big);
      assert w == (h + U16(m.nameLen, Big)) + U16(m.passLen, Big) + m.data;
      ReadU16(h + U16(m.nameLen, Big), m.passLen, m.data, Big);
    }
  }

  // A packet that carries message m: its big-endian struct and any padding bytes.
  predicate Carries(packet: seq<byte>, m: Message) {
    && Fits(m)
    && |packet| == Padded(HEADER + Length(m))
    && packet[..HEADER + Length(m)] == Struct(m, Big)
  }

  // handle_incoming_message hands an acceptable message to its callback as a struct in
  // the receiver's own byte order, and ignores any other of a known type.
  lemma HandleStruct(m: Message, o: Order)
    requires Fits(m)
    ensures |Struct(m, Big)| == HEADER + Length(m)
    ensures Read16(Struct(m, Big), 0, Big) == TypeOf(m) && Read16(Struct(m, Big), 2, Big) == Length(m)
    ensures Handle(Struct(m, Big), TypeOf(m), Length(m), o)
      == if Acceptable(m) then Delivered(Struct(m, o)) else Ignored
  {
    hide Struct, Read16, SwapHeader, SwapFields, FixedSize, Length, Guard;
    var w := Struct(m, Big);
    assert w + [] == w && Struct(m, o) + [] == Struct(m, o);
    StructReads(m, [], Big);
    GuardIsAcceptable(m);
    SwapStruct(m, [], o, Big, o);
  }

  // The UDP path delivers exactly the acceptable messages and ignores the others.
  lemma ReceiveCarried(packet: seq<byte>, m: Message, o: Order)
    requires Carries(packet, m)
    ensures Receive(packet, o) == if Acceptable(m) then Delivered(Struct(m, o)) else Ignored
  {
    hide Read16, Handle, Struct, Length;
    HandleStruct(m, o);
    ReadPrefix(packet, 0, HEADER + Length(m));
    ReadPrefix(packet, 2, HEADER + Length(m));
  }

  // Codec round trip, between machines of any two byte orders.
  lemma RoundTrip(m: Message, extra: seq<byte>, sender: Order, receiver: Order)
    requires Sendable(m)
    ensures CanSend(Struct(m, sender) + extra, sender)
    ensures Receive(Encode(Struct(m, sender) + extra, sender), receiver)
      == if Acceptable(m) then Delivered(Struct(m, receiver)) else Ignored
  {
    hide Receive, Encode, CanSend;
    EncodeIsWire(m, extra, sender);
    BodyLength(m, Big);
    ReceiveCarried(Wire(m), m, receiver);
  }

  // What a callback reads through the struct it is handed.
  function View(mem: seq<byte>, t: int, o: Order): Message
    requires FixedSize(t) <= |mem|
  {
    match t
    case 1 => Column(Read32(mem, 4, o), Read16(mem, 8, o))
    case 2 => ColumnAck(Read32(mem, 4, o))
    case 3 => Heartbeat(mem[4..])
    case 4 => HeartbeatAck(mem[4..])
    case 5 => Error(Read32(mem, 4, o), mem[8..])
    case 6 => Registration(Read32(mem, 4, o), Read16(mem, 8, o), Read16(mem, 10, o), Read16(mem, 12, o), mem[14..])
    case 7 => RegistrationAck
    case 8 => RegistrationErrorAck
    case 9 => PeerSelect(Read32(mem, 4, o), Read16(mem, 8, o), Read16(mem, 10, o), mem[12..])
    case _ => PeerSelectAck
  }

  lemma ReadU32(a: seq<byte>, v: uint32, c: seq<byte>, o: Order)
    ensures Read32(a + U32(v, o) + c, |a|, o) == v
  {
    hide U16, Read16;
    var h, l := v / 0x1_0000, v % 0x1_0000;
    var first, second := if o.Big? then h else l, if o.Big? then l else h;
    var b := a + U32(v, o) + c;
    assert b == a + U16(first, o) + (U16(second, o) + c);
    ReadU16(a, first, U16(second, o) + c, o);
    assert b == (a + U16(first, o)) + U16(second, o) + c;
    ReadU16(a + U16(first, o), second, c, o);
  }

  // The two messages with a longer fixed part, read behind any four-byte header.
  lemma ViewRegistration(h: seq<byte>, m: Message, o: Order)
    requires |h| == HEADER && m.Registration?
    ensures |h + Body(m, o)| >= 14 && View(h + Body(m, o), 6, o) == m
  {
    hide U16, U32, Read16, Read32;
    var b := h + Body(m, o);
    var r3 := m.data;
    var r2 := U16(m.passLen, o) + r3;
    var r1 := U16(m.nameLen, o) + r2;
    var r0 := U16(m.port, o) + r1;
    var a1 := h + U32(m.address, o);
    var a2 := a1 + U16(m.port, o);
    var a3 := a2 + U16(m.nameLen, o);
    assert b == h + U32(m.address, o) + r0;
    ReadU32(h, m.address, r0, o);
    assert b == a1 + U16(m.port, o) + r1;
    ReadU16(a1, m.port, r1, o);
    assert b == a2 + U16(m.nameLen, o) + r2;
    ReadU16(a2, m.nameLen, r2, o);
    assert b == a3 + U16(m.passLen, o) + r3;
    ReadU16(a3, m.passLen, r3, o);
  }

  lemma ViewPeerSelect(h: seq<byte>, m: Message, o: Order)
    requires |h| == HEADER && m.PeerSelect?
    ensures |h + Body(m, o)| >= 12 && View(h + Body(m, o), 9, o) == m
  {
    hide U16, U32, Read16, Read32;
    var b := h + Body(m, o);
    var r1 := U16(m.start, o) + m.name;
    var r0 := U16(m.port, o) + r1;
    var a1 := h + U32(m.address, o);
    var a2 := a1 + U16(m.port, o);
    assert b == h + U32(m.address, o) + r0;
    ReadU32(h, m.address, r0, o);
    assert b == a1 + U16(m.port, o) + r1;
    ReadU16(a1, m.port, r1, o);
    assert b == a2 + U16(m.start, o) + m.name;
    ReadU16(a2, m.start, m.name, o);
  }

  // A callback reads back exactly the fields and payload of the message that was sent.
  lemma ViewStruct(m: Message, o: Order)
    requires Fits(m)
    ensures FixedSize(TypeOf(m)) <= |Struct(m, o)| && View(Struct(m, o), TypeOf(m), o) == m
  {
    hide U16, U32, Read16, Read32;
    var h, b := Header(TypeOf(m), Length(m), o), Struct(m, o);
    match m
    case Column(sequence, column) =>
      assert b == h + U32(sequence, o) + U16(column, o) && b == (h + U32(sequence, o)) + U16(column, o) + [];
      ReadU32(h, sequence, U16(column, o), o);
      ReadU16(h + U32(sequence, o), column, [], o);
    case ColumnAck(sequence) =>
      assert b == h + U32(sequence, o) + [];
      ReadU32(h, sequence, [], o);
    case Error(code, text) =>
      assert b == h + U32(code, o) + text;
      ReadU32(h, code, text, o);
    case Registration(_, _, _, _, _) => ViewRegistration(h, m, o);
    case PeerSelect(_, _, _, _) => ViewPeerSelect(h, m, o);
    case _ =>
  }

  lemma WriteRead16(b: seq<byte>, at: nat, o: Order)
    requires at + 2 <= |b|
    ensures U16(Read16(b, at, o), o) == b[at..at + 2]
  {
  }

  lemma WriteRead32(b: seq<byte>, at: nat, o: Order)
    requires at + 4 <= |b|
    ensures U32(Read32(b, at, o), o) == b[at..at + 4]
  {
    hide U16, Read16;
    WriteRead16(b, at, o);
    WriteRead16(b, at + 2, o);
    assert b[at..at + 4] == b[at..at + 2] + b[at + 2..at + 4];
    Halves(Read16(b, at, o), Read16(b, at + 2, o));
    Halves(Read16(b, at + 2, o), Read16(b, at, o));
  }

  lemma Halves(h: uint16, l: uint16)
    ensures (h as int * 0x1_0000 + l) / 0x1_0000 == h && (h as int * 0x1_0000 + l) % 0x1_0000 == l
  {
  }

  // Every byte string that passes the guard is the struct of the message it is read as.
  lemma GuardedIsStruct(wire: seq<byte>, t: uint16, length: uint16)
    requires |wire| == HEADER + length && 1 <= t <= 10 && Guard(t, length, wire)
    requires Read16(wire, 0, Big) == t && Read16(wire, 2, Big) == length
    ensures FixedSize(t) <= |wire|
    ensures var m := View(wire, t, Big);
      Length(m) == length && TypeOf(m) == t && Acceptable(m) && Struct(m, Big) == wire
  {
    hide U16, U32, Read16, Read32;
    var m := View(wire, t, Big);
    WriteRead16(wire, 0, Big);
    WriteRead16(wire, 2, Big);
    BodyLength(m, Big);
    if t in {1, 2, 5, 6, 9} {
      WriteRead32(wire, 4, Big);
    }
    if t in {1, 6, 9} {
      WriteRead16(wire, 8, Big);
    }
    if t in {6, 9} {
      WriteRead16(wire, 10, Big);
    }
    if t == 6 {
      WriteRead16(wire, 12, Big);
    }
    assert Struct(m, Big) == wire;
  }

  // The size check and the guards accept exactly the padded packets of acceptable messages.
  lemma ReceiveExact(packet: seq<byte>, o: Order)
    ensures Receive(packet, o).Delivered? <==> exists m :: Acceptable(m) && Carries(packet, m)
  {
    hide Read16, SwapFields, SwapHeader, Guard, View, Struct;
    if Receive(packet, o).Delivered? {
      var t, length := Read16(packet, 0, Big), Read16(packet, 2, Big);
      var wire := packet[..HEADER + length];
      assert Read16(wire, 0, Big) == t && Read16(wire, 2, Big) == length by {
        ReadPrefix(packet, 0, HEADER + length);
        ReadPrefix(packet, 2, HEADER + length);
      }
      GuardedIsStruct(wire, t, length);
      assert Carries(packet, View(wire, t, Big));
    }
    forall m | Acceptable(m) && Carries(packet, m) ensures Receive(packet, o).Delivered? {
      ReceiveCarried(packet, m, o);
    }
  }

  // A well-formed packet of a type that no message has.
  predicate CarriesUnknown(packet: seq<byte>) {
    && HEADER <= |packet| == Padded(HEADER + Read16(packet, 2, Big))
    && !(1 <= Read16(packet, 0, Big) <= 10)
  }

  // Every packet gets one of three answers: delivery when it carries an acceptable message,
  // an error message when it is well formed and of unknown type, and none otherwise.
  lemma ReceiveAnswers(packet: seq<byte>, o: Order)
    ensures Receive(packet, o).UnknownType? <==> CarriesUnknown(packet)
    ensures Receive(packet, o).Ignored? <==>
      !CarriesUnknown(packet) && !(exists m :: Acceptable(m) && Carries(packet, m))
  {
    hide Read16, Guard, Struct, SwapFields, SwapHeader, Carries, Acceptable;
    ReceiveExact(packet, o);
  }

  // The same of a frame that handle_incoming_message is given.
  lemma HandleAnswers(wire: seq<byte>, o: Order)
    requires HEADER <= |wire| == HEADER + Read16(wire, 2, Big)
    ensures var t, e := Read16(wire, 0, Big), Handle(wire, Read16(wire, 0, Big), Read16(wire, 2, Big), o);
      && (e.UnknownType? <==> !(1 <= t <= 10))
      && (e.Delivered? <==> exists m :: Fits(m) && Acceptable(m) && wire == Struct(m, Big))
      && (forall m :: Fits(m) && Acceptable(m) && wire == Struct(m, Big) ==> e == Delivered(Struct(m, o)))
  {
    hide Read16, Guard, View, Struct, SwapFields, SwapHeader;
    var t, length := Read16(wire, 0, Big), Read16(wire, 2, Big);
    if Handle(wire, t, length, o).Delivered? {
      GuardedIsStruct(wire, t, length);
      var m := View(wire, t, Big);
      assert Fits(m) && Acceptable(m) && wire == Struct(m, Big);
    }
    forall m | Fits(m) && Acceptable(m) && wire == Struct(m, Big)
      ensures Handle(wire, t, length, o) == Delivered(Struct(m, o))
    {
      HandleStruct(m, o);
    }
  }

  lemma ReadPrefix(b: seq<byte>, at: nat, n: nat)
    requires at + 2 <= n <= |b|
    ensures Read16(b[..n], at, Big) == Read16(b, at, Big)
  {
  }
}
