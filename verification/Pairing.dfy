// The registration server of client/src/server.c on values: two connection slots, and a
// log of what the server received, sent, opened and closed.

module Pairing {
  import opened Words
  import opened Codec

  // struct ConnectionInfo, without its receive buffer. A free slot has fd -1.
  datatype Slot = Slot(
    fd: int,
    registered: bool,
    connSend: bool,
    address: uint32,
    port: uint16,
    name: seq<byte>)

  const FREE := Slot(-1, false, false, 0, 0, [])

  datatype Event =
    | Opened(fd: int)
    | Closed(fd: int)
    | Received(fd: int, message: Message)
    | Sent(fd: int, message: Message)
    | Shutdown(fd: int)

  type Log = seq<Event>

  datatype Server = Server(a: Slot, b: Slot, log: Log)

  const IDLE := Server(FREE, FREE, [])

  // get_conn: the first slot with this descriptor.
  datatype Which = First | Second | Neither

  function GetConn(s: Server, fd: int): Which {
    if s.a.fd == fd then First else if s.b.fd == fd then Second else Neither
  }

  function SetSlot(s: Server, w: Which, c: Slot): Server {
    match w
    case First => s.(a := c)
    case Second => s.(b := c)
    case Neither => s
  }

  function GetSlot(s: Server, w: Which): Slot
    requires !w.Neither?
  {
    if w.First? then s.a else s.b
  }

  // What the decoder lets through as a registration: the data holds name and password,
  // and the whole fits the length field.
  predicate Decodable(m: Message) {
    m.Registration? ==> Fits(m) && Acceptable(m)
  }

  // The password of a registration repeats its name.
  predicate Authentic(m: Message)
    requires m.Registration? && Acceptable(m)
  {
    m.nameLen == m.passLen && m.data[..m.nameLen] == m.data[m.nameLen..]
  }

  // peer_select_msg
  function PeerSelectFor(c: Slot, start: uint16): Message {
    PeerSelect(c.address, c.port, start, c.name)
  }

  // connect_clients on the two slots.
  function ConnectClients(s: Server): Server {
    if !s.a.registered || !s.b.registered || s.a.connSend || s.b.connSend then s
    else
      Server(s.a.(connSend := true), s.b.(connSend := true),
             s.log + [Sent(s.b.fd, PeerSelectFor(s.a, 0)), Sent(s.a.fd, PeerSelectFor(s.b, 1)),
                      Shutdown(s.a.fd), Shutdown(s.b.fd)])
  }

  // on_message_registration
  function OnRegistration(s: Server, fd: int, m: Message): Server
    requires m.Registration? && Decodable(m)
  {
    var r := s.(log := s.log + [Received(fd, m)]);
    var w := GetConn(s, fd);
    if w.Neither? || GetSlot(s, w).registered then r
    else if !Authentic(m) then r.(log := r.log + [Sent(fd, RegistrationErrorAck)])
    else
      var c := GetSlot(s, w).(registered := true, address := m.address, port := m.port, name := m.data[..m.nameLen]);
      ConnectClients(SetSlot(r.(log := r.log + [Sent(fd, RegistrationAck)]), w, c))
  }

  // close_connection, on a closed TCP connection or a peer select acknowledgement.
  function OnClose(s: Server, fd: int): Server {
    var w := GetConn(s, fd);
    if w.Neither? then s
    else SetSlot(s.(log := s.log + [Closed(fd)]), w, GetSlot(s, w).(fd := -1, registered := false, connSend := false))
  }

  // on_acceptable, when accept returned fd. It needs a free slot.
  function OnAccept(s: Server, fd: int): Server
    requires !GetConn(s, -1).Neither?
  {
    var w := GetConn(s, -1);
    if fd == -1 then s
    else SetSlot(s.(log := s.log + [Opened(fd)]), w, GetSlot(s, w).(fd := fd, registered := false, connSend := false))
  }

  datatype Input = Accept(fd: int) | Message(fd: int, message: Message) | Hangup(fd: int)

  // What can happen: accept fails or returns a descriptor that is not open, while a slot
  // is free; messages that passed their decoder, and hangups, come on real descriptors.
  predicate Enabled(s: Server, e: Input) {
    match e
    case Accept(fd) => !GetConn(s, -1).Neither? && (fd == -1 || (fd > 0 && GetConn(s, fd).Neither?))
    case Message(fd, m) => fd > 0 && Decodable(m)
    case Hangup(fd) => fd > 0
  }

  // Messages of other types are answered without touching the slots.
  function Next(s: Server, e: Input): Server {
    if !Enabled(s, e) then s
    else
      match e
      case Accept(fd) => OnAccept(s, fd)
      case Hangup(fd) => OnClose(s, fd)
      case Message(fd, m) =>
        if m.Registration? then OnRegistration(s, fd, m)
        else if m.PeerSelectAck? then OnClose(s, fd)
        else s
  }

  function Run(es: seq<Input>): Server {
    if es == [] then IDLE else Next(Run(es[..|es| - 1]), es[|es| - 1])
  }

  // ---------------------------------------------------------------- what the log says

  // The peer selects sent on fd since it was last opened.
  function SelectsSinceOpen(log: Log, fd: int): nat {
    if log == [] then 0 else NowSelects(SelectsSinceOpen(log[..|log| - 1], fd), log[|log| - 1], fd)
  }

  function NowSelects(n: nat, e: Event, fd: int): nat {
    if e == Opened(fd) then 0 else if IsSelect(e) && e.fd == fd then n + 1 else n
  }

  // The registration accepted on fd since it was last opened or closed, if any.
  function AcceptedOn(log: Log, fd: int): seq<Message> {
    if log == [] then [] else NowAccepted(AcceptedOn(log[..|log| - 1], fd), log[..|log| - 1], log[|log| - 1], fd)
  }

  function NowAccepted(ms: seq<Message>, before: Log, e: Event, fd: int): seq<Message> {
    if e == Opened(fd) || e == Closed(fd) then []
    else if e == Sent(fd, RegistrationAck) && before != [] && before[|before| - 1].Received?
            && before[|before| - 1].fd == fd
    then [before[|before| - 1].message]
    else ms
  }

  // Whether fd has been opened and not closed since.
  predicate IsOpen(log: Log, fd: int) {
    log != [] && NowOpen(IsOpen(log[..|log| - 1], fd), log[|log| - 1], fd)
  }

  predicate NowOpen(before: bool, e: Event, fd: int) {
    if e == Opened(fd) then true else if e == Closed(fd) then false else before
  }

  // A registration received as the i-th event is answered when its connection is open and
  // has no registration yet.
  predicate Asks(log: Log, i: int)
    requires 0 <= i < |log|
  {
    log[i].Received? && IsOpen(log[..i], log[i].fd) && AcceptedOn(log[..i], log[i].fd) == []
  }

  predicate IsAnswer(e: Event) {
    e.Sent? && (e.message.RegistrationAck? || e.message.RegistrationErrorAck?)
  }

  function Answer(m: Message): Message
    requires m.Registration? && Acceptable(m)
  {
    if Authentic(m) then RegistrationAck else RegistrationErrorAck
  }

  // The i-th event is followed at once by the answer it asks for, and by none if it asks
  // for none; an answer follows what asks for it.
  ghost predicate Answered(log: Log, i: int)
    requires 0 <= i < |log|
  {
    && (log[i].Received? ==> log[i].message.Registration? && Decodable(log[i].message))
    && (Asks(log, i) ==> i + 1 < |log| && log[i + 1] == Sent(log[i].fd, Answer(log[i].message)))
    && (i + 1 < |log| && IsAnswer(log[i + 1]) ==> Asks(log, i))
  }

  ghost predicate AllAnswered(log: Log) {
    && (log != [] ==> !IsAnswer(log[0]))
    && forall i :: 0 <= i < |log| ==> Answered(log, i)
  }

  // The i-th event begins an exchange of peer selects.
  predicate Begins(log: Log, i: int) {
    0 <= i < |log| && IsSelect(log[i]) && log[i].message.start == 0
  }

  // An exchange is followed at once by the shutdown of both connections, and nothing else
  // is shut down.
  ghost predicate AllShutDown(log: Log) {
    && (forall i :: Begins(log, i) ==>
          i + 3 < |log| && log[i + 2] == Shutdown(log[i + 1].fd) && log[i + 3] == Shutdown(log[i].fd))
    && (forall i :: 0 <= i < |log| && log[i].Shutdown? ==> Begins(log, i - 2) || Begins(log, i - 3))
  }

  // The slot holds what was registered.
  predicate Describes(c: Slot, m: Message) {
    m.Registration? && Decodable(m) && Authentic(m)
    && c.address == m.address && c.port == m.port && c.name == m.data[..m.nameLen]
  }

  // The i-th event tells fd what `other` has registered, with this start flag.
  predicate Tells(log: Log, i: int, fd: int, other: int, start: uint16) {
    && 0 <= i < |log|
    && |AcceptedOn(log[..i], other)| == 1
    && var m := AcceptedOn(log[..i], other)[0];
      m.Registration? && Decodable(m) && Authentic(m)
      && log[i] == Sent(fd, PeerSelect(m.address, m.port, start, m.data[..m.nameLen]))
  }

  // The i-th and the next event tell two connections about each other, with complementary
  // start flags.
  ghost predicate Exchange(log: Log, i: int) {
    exists fd, other :: fd != other && Tells(log, i, fd, other, 0) && Tells(log, i + 1, other, fd, 1)
  }

  predicate IsSelect(e: Event) {
    e.Sent? && e.message.PeerSelect?
  }

  // Peer selects are sent only in such exchanges.
  ghost predicate AllExchanges(log: Log) {
    forall i :: 0 <= i < |log| && IsSelect(log[i]) ==> Exchange(log, i) || Exchange(log, i - 1)
  }

  // ---------------------------------------------------------------- the invariant

  // A slot agrees with the log.
  ghost predicate SlotOk(c: Slot, log: Log) {
    && (c.fd == -1 || c.fd > 0)
    && (c.connSend ==> c.registered) && (c.registered ==> c.fd > 0)
    && |c.name| <= 32762
    && (c.fd > 0 ==>
          && SelectsSinceOpen(log, c.fd) == (if c.connSend then 1 else 0)
          && (!c.registered ==> AcceptedOn(log, c.fd) == [])
          && (c.registered ==> |AcceptedOn(log, c.fd)| == 1 && Describes(c, AcceptedOn(log, c.fd)[0])))
  }

  ghost predicate Consistent(s: Server) {
    && SlotOk(s.a, s.log) && SlotOk(s.b, s.log)
    && (s.a.fd > 0 ==> s.a.fd != s.b.fd)
    && !(s.a.registered && s.b.registered && !s.a.connSend && !s.b.connSend)
    && (forall fd :: SelectsSinceOpen(s.log, fd) <= 1)
    && AllExchanges(s.log)
    && (forall fd :: IsOpen(s.log, fd) <==> fd > 0 && (s.a.fd == fd || s.b.fd == fd))
  }

  ghost predicate Inv(s: Server) {
    Consistent(s) && AllAnswered(s.log) && AllShutDown(s.log)
  }

  lemma Append(log: Log, e: Event)
    ensures forall fd :: SelectsSinceOpen(log + [e], fd) == NowSelects(SelectsSinceOpen(log, fd), e, fd)
    ensures forall fd :: AcceptedOn(log + [e], fd) == NowAccepted(AcceptedOn(log, fd), log, e, fd)
    ensures forall fd :: IsOpen(log + [e], fd) <==> NowOpen(IsOpen(log, fd), e, fd)
  {
    assert (log + [e])[..|log|] == log;
  }

  // Events that change nothing about the connection of a slot.
  predicate Foreign(e: Event, fd: int) {
    e.fd != fd || e.Received? || e.Shutdown? || (e.Sent? && !e.message.PeerSelect? && !e.message.RegistrationAck?)
  }

  lemma ForeignKeeps(c: Slot, log: Log, e: Event)
    requires SlotOk(c, log) && Foreign(e, c.fd)
    ensures SlotOk(c, log + [e])
  {
    hide Describes, AcceptedOn, SelectsSinceOpen;
    Append(log, e);
  }

  // Appending an event that is not a peer select, or completing an exchange.
  lemma LogKeeps(log: Log, e: Event)
    requires AllExchanges(log) && (IsSelect(e) ==> Exchange(log + [e], |log|) || Exchange(log + [e], |log| - 1))
    ensures AllExchanges(log + [e])
  {
    hide Exchange;
    var r := log + [e];
    forall i | 0 <= i < |r| && IsSelect(r[i]) ensures Exchange(r, i) || Exchange(r, i - 1) {
      if i < |log| {
        ExchangeGrows(log, e, i);
        ExchangeGrows(log, e, i - 1);
      }
    }
  }

  lemma ExchangeGrows(log: Log, e: Event, i: int)
    ensures Exchange(log, i) ==> Exchange(log + [e], i)
  {
    hide AcceptedOn, Authentic, Decodable;
    var r := log + [e];
    if Exchange(log, i) {
      var fd, other :| fd != other && Tells(log, i, fd, other, 0) && Tells(log, i + 1, other, fd, 1);
      assert r[..i] == log[..i] && r[..i + 1] == log[..i + 1];
      assert Tells(r, i, fd, other, 0) && Tells(r, i + 1, other, fd, 1);
    }
  }

  lemma AcceptConsistent(s: Server, fd: int)
    requires Consistent(s) && Enabled(s, Accept(fd))
    ensures Consistent(OnAccept(s, fd))
  {
    hide Describes, AcceptedOn, SelectsSinceOpen, IsOpen, AllExchanges, Decodable;
    if fd != -1 {
      Append(s.log, Opened(fd));
      LogKeeps(s.log, Opened(fd));
    }
  }

  lemma CloseConsistent(s: Server, fd: int)
    requires Consistent(s) && fd > 0
    ensures Consistent(OnClose(s, fd))
  {
    hide Describes, AcceptedOn, SelectsSinceOpen, IsOpen, AllExchanges;
    if !GetConn(s, fd).Neither? {
      Append(s.log, Closed(fd));
      LogKeeps(s.log, Closed(fd));
    }
  }

  // connect_clients: both slots registered, neither paired, is exactly when it pairs them.
  lemma ConnectConsistent(s: Server)
    requires SlotOk(s.a, s.log) && SlotOk(s.b, s.log) && (s.a.fd > 0 ==> s.a.fd != s.b.fd)
    requires (forall fd :: SelectsSinceOpen(s.log, fd) <= 1) && AllExchanges(s.log)
    requires forall fd :: IsOpen(s.log, fd) <==> fd > 0 && (s.a.fd == fd || s.b.fd == fd)
    ensures Consistent(ConnectClients(s))
  {
    hide AcceptedOn, SelectsSinceOpen, IsOpen, AllExchanges, Decodable, Authentic;
    if s.a.registered && s.b.registered && !s.a.connSend && !s.b.connSend {
      var e0, e1 := Sent(s.b.fd, PeerSelectFor(s.a, 0)), Sent(s.a.fd, PeerSelectFor(s.b, 1));
      var r := Server(s.a.(connSend := true), s.b.(connSend := true), s.log + [e0] + [e1]);
      assert Consistent(r) by {
        ExchangeMade(s);
        Append(s.log, e0);
        Append(s.log + [e0], e1);
      }
      PlainKeeps(r, Shutdown(s.a.fd));
      PlainKeeps(r.(log := r.log + [Shutdown(s.a.fd)]), Shutdown(s.b.fd));
      assert ConnectClients(s).log == r.log + [Shutdown(s.a.fd)] + [Shutdown(s.b.fd)];
    }
  }

  lemma ExchangeMade(s: Server)
    requires SlotOk(s.a, s.log) && SlotOk(s.b, s.log) && s.a.fd != s.b.fd
    requires s.a.registered && s.b.registered && AllExchanges(s.log)
    ensures AllExchanges(s.log + [Sent(s.b.fd, PeerSelectFor(s.a, 0))] + [Sent(s.a.fd, PeerSelectFor(s.b, 1))])
  {
    hide AcceptedOn, Decodable, Authentic, SelectsSinceOpen;
    var e0, e1 := Sent(s.b.fd, PeerSelectFor(s.a, 0)), Sent(s.a.fd, PeerSelectFor(s.b, 1));
    var l, l1, l2 := s.log, s.log + [e0], s.log + [e0] + [e1];
    Append(l, e0);
    assert l2[..|l|] == l && l2[..|l| + 1] == l1;
    assert Tells(l2, |l|, s.b.fd, s.a.fd, 0) && Tells(l2, |l| + 1, s.a.fd, s.b.fd, 1);
    assert Exchange(l2, |l|);
    hide Exchange;
    forall i | 0 <= i < |l2| && IsSelect(l2[i]) ensures Exchange(l2, i) || Exchange(l2, i - 1) {
      if i < |l| {
        ExchangeGrows(l, e0, i);
        ExchangeGrows(l, e0, i - 1);
        ExchangeGrows(l1, e1, i);
        ExchangeGrows(l1, e1, i - 1);
      }
    }
  }

  // An event that concerns neither slot and is no peer select.
  lemma PlainKeeps(s: Server, e: Event)
    requires Consistent(s) && Foreign(e, s.a.fd) && Foreign(e, s.b.fd) && !e.Opened? && !IsSelect(e)
    ensures Consistent(s.(log := s.log + [e]))
  {
    hide SlotOk, SelectsSinceOpen, AllExchanges;
    ForeignKeeps(s.a, s.log, e);
    ForeignKeeps(s.b, s.log, e);
    Append(s.log, e);
    LogKeeps(s.log, e);
  }

  lemma DataFits(m: Message)
    requires m.Registration? && Decodable(m) && Authentic(m)
    ensures m.nameLen <= |m.data| && |m.data[..m.nameLen]| <= 32762
  {
  }

  // The slot of an accepted registration.
  lemma RegisteredKeeps(c: Slot, log: Log, m: Message)
    requires SlotOk(c, log) && c.fd > 0 && !c.registered && m.Registration? && Decodable(m) && Authentic(m)
    requires log != [] && log[|log| - 1] == Received(c.fd, m)
    ensures SlotOk(c.(registered := true, address := m.address, port := m.port, name := m.data[..m.nameLen]),
                   log + [Sent(c.fd, RegistrationAck)])
  {
    hide AcceptedOn, SelectsSinceOpen, Decodable, Authentic;
    DataFits(m);
    Append(log, Sent(c.fd, RegistrationAck));
  }

  lemma RegistrationConsistent(s: Server, fd: int, m: Message)
    requires Consistent(s) && fd > 0 && m.Registration? && Decodable(m)
    ensures Consistent(OnRegistration(s, fd, m))
  {
    hide SlotOk, AcceptedOn, SelectsSinceOpen, AllExchanges, Authentic, ConnectClients;
    var r := s.(log := s.log + [Received(fd, m)]);
    PlainKeeps(s, Received(fd, m));
    var w := GetConn(s, fd);
    if !w.Neither? && !GetSlot(s, w).registered {
      if !Authentic(m) {
        PlainKeeps(r, Sent(fd, RegistrationErrorAck));
      } else {
        var ack := Sent(fd, RegistrationAck);
        RegisteredKeeps(GetSlot(r, w), r.log, m);
        ForeignKeeps(if w.First? then r.b else r.a, r.log, ack);
        Append(r.log, ack);
        LogKeeps(r.log, ack);
        var c := GetSlot(s, w).(registered := true, address := m.address, port := m.port, name := m.data[..m.nameLen]);
        ConnectConsistent(SetSlot(r.(log := r.log + [ack]), w, c));
      }
    }
  }

  // ---------------------------------------------------------------- answers in the log

  // An event that neither asks nor answers, and begins or ends no exchange.
  lemma QuietLog(log: Log, e: Event)
    requires AllAnswered(log) && AllShutDown(log)
    requires !e.Received? && !IsAnswer(e) && !IsSelect(e) && !e.Shutdown?
    ensures AllAnswered(log + [e]) && AllShutDown(log + [e])
  {
    QuietAnswers(log, e);
    QuietShutDown(log, e);
  }

  lemma QuietAnswers(log: Log, e: Event)
    requires AllAnswered(log) && !e.Received? && !IsAnswer(e)
    ensures AllAnswered(log + [e])
  {
    hide IsOpen, AcceptedOn, Decodable, Answer;
    var r := log + [e];
    forall i | 0 <= i < |r| ensures Answered(r, i) {
      if i < |log| {
        assert r[i] == log[i] && r[..i] == log[..i] && Answered(log, i);
      }
    }
  }

  lemma QuietShutDown(log: Log, e: Event)
    requires AllShutDown(log) && !IsSelect(e) && !e.Shutdown?
    ensures AllShutDown(log + [e])
  {
    var r := log + [e];
    assert forall i :: Begins(r, i) <==> Begins(log, i);
  }

  // A registration, with the answer it asks for.
  lemma AnsweredLog(log: Log, fd: int, m: Message)
    requires AllAnswered(log) && m.Registration? && Decodable(m)
    ensures var r := log + [Received(fd, m)];
      if IsOpen(log, fd) && AcceptedOn(log, fd) == [] then AllAnswered(r + [Sent(fd, Answer(m))]) else AllAnswered(r)
  {
    hide IsOpen, AcceptedOn, Acceptable, Answer;
    var asks := IsOpen(log, fd) && AcceptedOn(log, fd) == [];
    var r := log + [Received(fd, m)] + if asks then [Sent(fd, Answer(m))] else [];
    assert asks ==> r[|log| + 1] == Sent(fd, Answer(m));
    forall i | 0 <= i < |r| ensures Answered(r, i) {
      if i < |log| {
        assert r[i] == log[i] && r[..i] == log[..i] && Answered(log, i);
      } else if i == |log| {
        assert r[..i] == log;
      }
    }
    assert log + [Received(fd, m)] + [] == log + [Received(fd, m)];
  }

  // An exchange, with the shutdown of both connections.
  lemma ExchangeLog(log: Log, fd: int, other: int, x: Message, y: Message)
    requires AllAnswered(log) && AllShutDown(log)
    requires x.PeerSelect? && y.PeerSelect? && x.start == 0 && y.start == 1
    ensures var r := log + [Sent(fd, x), Sent(other, y), Shutdown(other), Shutdown(fd)];
      AllAnswered(r) && AllShutDown(r)
  {
    hide AllAnswered, AllShutDown;
    var l1 := log + [Sent(fd, x)];
    var l2 := l1 + [Sent(other, y)];
    var l3 := l2 + [Shutdown(other)];
    assert log + [Sent(fd, x), Sent(other, y), Shutdown(other), Shutdown(fd)] == l3 + [Shutdown(fd)];
    QuietAnswers(log, Sent(fd, x));
    QuietAnswers(l1, Sent(other, y));
    QuietAnswers(l2, Shutdown(other));
    QuietAnswers(l3, Shutdown(fd));
    ExchangeShutDown(log, Sent(fd, x), Sent(other, y));
  }

  lemma ExchangeShutDown(log: Log, x: Event, y: Event)
    requires AllShutDown(log) && IsSelect(x) && IsSelect(y) && x.message.start == 0 && y.message.start == 1
    ensures AllShutDown(log + [x, y, Shutdown(y.fd), Shutdown(x.fd)])
  {
    var n, r := |log|, log + [x, y, Shutdown(y.fd), Shutdown(x.fd)];
    assert r[n] == x && r[n + 1] == y && r[n + 2] == Shutdown(y.fd) && r[n + 3] == Shutdown(x.fd);
    assert forall i :: Begins(r, i) <==> Begins(log, i) || i == n;
  }

  lemma ConnectLog(s: Server)
    requires AllAnswered(s.log) && AllShutDown(s.log)
    ensures AllAnswered(ConnectClients(s).log) && AllShutDown(ConnectClients(s).log)
  {
    hide AllAnswered, AllShutDown;
    if ConnectClients(s) != s {
      ExchangeLog(s.log, s.b.fd, s.a.fd, PeerSelectFor(s.a, 0), PeerSelectFor(s.b, 1));
    }
  }

  // A connection in a slot is open, and it is registered when a registration was accepted.
  lemma SlotInLog(s: Server, fd: int)
    requires Consistent(s) && fd > 0
    ensures var w := GetConn(s, fd);
      && (w.Neither? <==> !IsOpen(s.log, fd))
      && (!w.Neither? ==> (GetSlot(s, w).registered <==> AcceptedOn(s.log, fd) != []))
  {
    hide IsOpen, AcceptedOn, SelectsSinceOpen, AllExchanges, Describes;
  }

  lemma RegistrationLog(s: Server, fd: int, m: Message)
    requires Inv(s) && fd > 0 && m.Registration? && Decodable(m)
    ensures AllAnswered(OnRegistration(s, fd, m).log) && AllShutDown(OnRegistration(s, fd, m).log)
  {
    hide Consistent, AllAnswered, AllShutDown, ConnectClients, Acceptable, Authentic, IsOpen, AcceptedOn;
    SlotInLog(s, fd);
    var r := s.log + [Received(fd, m)];
    AnsweredLog(s.log, fd, m);
    QuietShutDown(s.log, Received(fd, m));
    QuietShutDown(r, Sent(fd, Answer(m)));
    var w := GetConn(s, fd);
    if !w.Neither? && !GetSlot(s, w).registered && Authentic(m) {
      DataFits(m);
      var c := GetSlot(s, w).(registered := true, address := m.address, port := m.port, name := m.data[..m.nameLen]);
      ConnectLog(SetSlot(s.(log := r + [Sent(fd, RegistrationAck)]), w, c));
    }
  }

  lemma AcceptKeeps(s: Server, fd: int)
    requires Inv(s) && Enabled(s, Accept(fd))
    ensures Inv(OnAccept(s, fd))
  {
    hide Consistent, AllAnswered, AllShutDown;
    AcceptConsistent(s, fd);
    QuietLog(s.log, Opened(fd));
  }

  lemma CloseKeeps(s: Server, fd: int)
    requires Inv(s) && fd > 0
    ensures Inv(OnClose(s, fd))
  {
    hide Consistent, AllAnswered, AllShutDown;
    CloseConsistent(s, fd);
    QuietLog(s.log, Closed(fd));
  }

  lemma RegistrationKeeps(s: Server, fd: int, m: Message)
    requires Inv(s) && fd > 0 && m.Registration? && Decodable(m)
    ensures Inv(OnRegistration(s, fd, m))
  {
    hide Consistent, AllAnswered, AllShutDown, OnRegistration;
    RegistrationConsistent(s, fd, m);
    RegistrationLog(s, fd, m);
  }

  lemma NextKeeps(s: Server, e: Input)
    requires Inv(s)
    ensures Inv(Next(s, e))
  {
    hide Inv, OnAccept, OnClose, OnRegistration;
    if Enabled(s, e) {
      match e
      case Accept(fd) => AcceptKeeps(s, fd);
      case Hangup(fd) => CloseKeeps(s, fd);
      case Message(fd, m) =>
        if m.Registration? {
          RegistrationKeeps(s, fd, m);
        } else if m.PeerSelectAck? {
          CloseKeeps(s, fd);
        }
    }
  }

  // Over every run: the descriptors in the slots are distinct and exactly those opened and
  // not closed since, a free slot is neither registered nor paired, a paired one is
  // registered, no connection is sent a second peer select before it is closed, peer
  // selects come in exchanges of what both have registered with complementary start flags,
  // each followed by the shutdown of both connections, and two registered clients never
  // both wait. A registration on an open connection without one is answered at once,
  // according to name and password, and nothing else is.
  lemma {:induction false} RunsPair(es: seq<Input>)
    ensures Inv(Run(es))
  {
    hide Next;
    if es != [] {
      RunsPair(es[..|es| - 1]);
      NextKeeps(Run(es[..|es| - 1]), es[|es| - 1]);
    }
  }

  // What a new connection does: it takes the first free slot, unregistered and unpaired, and the
  // other slot is as it was.
  lemma AcceptOpens(s: Server, fd: int)
    requires Inv(s) && Enabled(s, Accept(fd)) && fd > 0
    ensures var r := Next(s, Accept(fd));
      && r.log == s.log + [Opened(fd)] && IsOpen(r.log, fd) && !IsOpen(s.log, fd)
      && !GetConn(r, fd).Neither? && !GetSlot(r, GetConn(r, fd)).registered && !GetSlot(r, GetConn(r, fd)).connSend
      && (if s.a.fd == -1 then r.a.fd == fd && r.b == s.b else s.b.fd == -1 && r.b.fd == fd && r.a == s.a)
  {
    hide AcceptedOn, SelectsSinceOpen, AllExchanges, AllAnswered, AllShutDown, Describes;
    Append(s.log, Opened(fd));
  }

  // What the end of a connection does: its slot is free, unregistered and unpaired, the
  // other is as it was, and there is room to accept again. It has no effect on a descriptor
  // that is not open.
  lemma HangupFrees(s: Server, e: Input)
    requires Inv(s) && (e.Hangup? || (e.Message? && e.message.PeerSelectAck?)) && e.fd > 0
    ensures var r := Next(s, e);
      && r.a.fd != e.fd && r.b.fd != e.fd
      && (if IsOpen(s.log, e.fd) then
            && r.log == s.log + [Closed(e.fd)] && !IsOpen(r.log, e.fd)
            && (if s.a.fd == e.fd then Free(r.a) && r.b == s.b else Free(r.b) && r.a == s.a)
            && (forall fd :: fd > 0 && !IsOpen(r.log, fd) ==> Enabled(r, Accept(fd)))
          else r == s)
  {
    hide AcceptedOn, SelectsSinceOpen, AllExchanges, AllAnswered, AllShutDown, Describes, Decodable;
    Append(s.log, Closed(e.fd));
    NextKeeps(s, e);
    assert e.Message? ==> Decodable(e.message) by {
      NotRegistration(e);
    }
  }

  predicate Free(c: Slot) {
    c.fd == -1 && !c.registered && !c.connSend
  }

  lemma NotRegistration(e: Input)
    ensures e.Message? && e.message.PeerSelectAck? ==> Decodable(e.message)
  {
  }

  // A registration pairs the clients exactly when it is the one the other was waiting for,
  // and the client in the first slot is told to start.
  lemma PairsExactlyWhen(s: Server, fd: int, m: Message)
    requires Inv(s) && fd > 0 && m.Registration? && Decodable(m)
    ensures var r := OnRegistration(s, fd, m);
      (exists i :: |s.log| <= i < |r.log| && IsSelect(r.log[i])) <==>
        var w := GetConn(s, fd);
        && !w.Neither? && !GetSlot(s, w).registered && Authentic(m)
        && var other := if w.First? then s.b else s.a;
          other.registered && !other.connSend
    ensures var r := OnRegistration(s, fd, m);
      forall i :: |s.log| <= i < |r.log| && IsSelect(r.log[i]) ==>
        r.log[i].fd == if r.log[i].message.start == 1 then r.a.fd else r.b.fd
  {
    hide SlotOk, Authentic, AllExchanges, SelectsSinceOpen;
    var r := OnRegistration(s, fd, m);
    var w := GetConn(s, fd);
    SlotFlags(s.a, s.log);
    SlotFlags(s.b, s.log);
    if !w.Neither? && !GetSlot(s, w).registered && Authentic(m) {
      var other := if w.First? then s.b else s.a;
      if other.registered && !other.connSend {
        assert IsSelect(r.log[|s.log| + 2]);
      }
    }
  }

  lemma NamesFit(s: Server)
    requires Inv(s)
    ensures |s.a.name| <= 32762 && |s.b.name| <= 32762
  {
  }

  lemma SlotFlags(c: Slot, log: Log)
    requires SlotOk(c, log)
    ensures c.connSend ==> c.registered
  {
  }

  // The peer select of a registered client always fits its uint16 length; its receiver's
  // decoder accepts it exactly when the name has at least four bytes.
  lemma PeerSelectReadable(c: Slot, log: Log, start: uint16, o: Order)
    requires SlotOk(c, log)
    ensures var m := PeerSelectFor(c, start);
      && Sendable(m) && Length(m) == 8 + |c.name|
      && Receive(Wire(m), o) == if |c.name| >= 4 then Delivered(Struct(m, o)) else Ignored
  {
    hide Receive, Struct, Wire;
    SelectReadable(PeerSelectFor(c, start), o);
  }

  lemma SelectReadable(m: Message, o: Order)
    requires m.PeerSelect? && |m.name| <= 32762
    ensures Sendable(m) && Fits(m) && Length(m) == 8 + |m.name|
    ensures Receive(Wire(m), o) == if |m.name| >= 4 then Delivered(Struct(m, o)) else Ignored
  {
    hide Receive, Struct, Wire;
    BodyLength(m, Big);
    EncodeIsWire(m, [], Big);
    RoundTrip(m, [], Big, o);
  }

  // A name shorter than four bytes is registered and paired all the same, and then the
  // other client's decoder ignores the peer select.
  lemma ShortNameIsIgnored(o: Order) returns (es: seq<Input>, i: nat)
    ensures i < |Run(es).log| && IsSelect(Run(es).log[i]) && Fits(Run(es).log[i].message)
    ensures Receive(Wire(Run(es).log[i].message), o) == Ignored
  {
    hide Receive, Wire;
    var m := Registration(0, 0, 1, 1, [65, 65]);
    es := [Accept(4), Accept(5), Message(4, m), Message(5, m)];
    assert Enabled(IDLE, es[0]);
    var s1 := Next(IDLE, es[0]);
    var s2 := Next(s1, es[1]);
    var s3 := Next(s2, es[2]);
    var s4 := Next(s3, es[3]);
    assert s4.log[6..8] == [Sent(5, PeerSelect(0, 0, 0, [65])), Sent(4, PeerSelect(0, 0, 1, [65]))];
    i := 6;
    RunFour(es);
    SelectReadable(s4.log[6].message, o);
  }

  lemma RunFour(es: seq<Input>)
    requires |es| == 4
    ensures Run(es) == Next(Next(Next(Next(IDLE, es[0]), es[1]), es[2]), es[3])
  {
    hide Next;
    assert es[..3][..2] == es[..2] && es[..2][..1] == es[..1] && es[..1][..0] == [];
    assert Run(es[..1]) == Next(IDLE, es[0]);
    assert Run(es[..2]) == Next(Run(es[..1]), es[1]);
    assert Run(es[..3]) == Next(Run(es[..2]), es[2]);
  }
}
