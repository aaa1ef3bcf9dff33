// The registration server of client/src/server.c on the heap: the global array of two
// ConnectionInfo objects and the event handlers that update it in place.

module Server {
  import opened Words
  import opened Codec
  import opened Pairing

  const CONNECTION_COUNT := 2

  // struct ConnectionInfo
  class Connection {
    var fd: int
    var registered: bool
    var connSend: bool
    var address: uint32
    var port: uint16
    var name: seq<byte>

    constructor ()
      ensures View() == FREE
    {
      fd, registered, connSend, address, port, name := -1, false, false, 0, 0, [];
    }

    function View(): Slot
      reads this
    {
      Slot(fd, registered, connSend, address, port, name)
    }
  }

  class RegistrationServer {
    const connections: array<Connection>
    ghost var log: Log

    predicate Valid()
      reads this, connections
    {
      && connections.Length == CONNECTION_COUNT
      && connections[0] != connections[1]
    }

    ghost function View(): Pairing.Server
      requires Valid()
      reads this, connections, connections[0], connections[1]
    {
      Pairing.Server(connections[0].View(), connections[1].View(), log)
    }

    constructor ()
      ensures Valid() && View() == IDLE && fresh(connections) && fresh(connections[0]) && fresh(connections[1])
    {
      var a := new Connection();
      var b := new Connection();
      connections := new Connection[CONNECTION_COUNT](i => if i == 0 then a else b);
      log := [];
    }

    // get_conn
    method GetConn(fd: int) returns (conn: Connection?)
      requires Valid()
      ensures conn ==
        match Pairing.GetConn(View(), fd)
        case First => connections[0]
        case Second => connections[1]
        case Neither => null
    {
      for i := 0 to CONNECTION_COUNT
        invariant forall j :: 0 <= j < i ==> connections[j].fd != fd
      {
        if connections[i].fd == fd {
          return connections[i];
        }
      }
      return null;
    }

    // peer_select_msg, with the uint16 in which it keeps the length.
    method PeerSelectMsg(conn: Connection, start: uint16) returns (msg: Message, length: uint16)
      requires |conn.name| <= 32762
      ensures msg == PeerSelectFor(conn.View(), start) && length == Length(msg)
    {
      length := (8 + |conn.name|) % 0x1_0000;
      msg := PeerSelect(conn.address, conn.port, start, conn.name);
    }

    // connect_clients
    method ConnectClients(a: Connection, b: Connection)
      requires Valid() && a == connections[0] && b == connections[1]
      requires |a.name| <= 32762 && |b.name| <= 32762
      modifies this`log, a, b
      ensures Valid() && View() == Pairing.ConnectClients(old(View()))
    {
      if !a.registered || !b.registered {
        return;
      }
      if a.connSend || b.connSend {
        return;
      }
      var aMsg, bMsg;
      var aLength, bLength;
      aMsg, aLength := PeerSelectMsg(a, 0);
      bMsg, bLength := PeerSelectMsg(b, 1);
      log := log + [Sent(b.fd, aMsg)];
      log := log + [Sent(a.fd, bMsg)];
      log := log + [Shutdown(a.fd)];
      log := log + [Shutdown(b.fd)];
      a.connSend := true;
      b.connSend := true;
    }

    // on_message_registration
    method OnRegistration(fd: int, m: Message)
      requires Valid() && Inv(View()) && fd > 0 && m.Registration? && Decodable(m)
      modifies this`log, connections[0], connections[1]
      ensures Valid() && Inv(View()) && View() == Pairing.OnRegistration(old(View()), fd, m)
    {
      hide Inv;
      RegistrationKeeps(View(), fd, m);
      NamesFit(View());
      log := log + [Received(fd, m)];
      var conn := GetConn(fd);
      if conn == null || conn.registered {
        return;
      }
      if m.nameLen as int > 0x1_0000 || m.nameLen != m.passLen || m.data[..m.nameLen] != m.data[m.nameLen..] {
        log := log + [Sent(fd, RegistrationErrorAck)];
        return;
      }
      Store(conn, m);
      log := log + [Sent(fd, RegistrationAck)];
      ConnectClients(connections[0], connections[1]);
    }

    // Keep what the client has registered with.
    method Store(conn: Connection, m: Message)
      requires m.Registration? && Decodable(m)
      modifies conn
      ensures conn.View() == old(conn.View()).(registered := true, address := m.address, port := m.port,
                                              name := m.data[..m.nameLen])
    {
      conn.registered := true;
      conn.address := m.address;
      conn.port := m.port;
      conn.name := m.data[..m.nameLen];
    }

    // close_connection
    method CloseConnection(fd: int)
      requires Valid() && Inv(View()) && fd > 0
      modifies this`log, connections[0], connections[1]
      ensures Valid() && Inv(View()) && View() == OnClose(old(View()), fd)
    {
      hide Inv;
      CloseKeeps(View(), fd);
      var conn := GetConn(fd);
      if conn == null {
        return;
      }
      conn.fd := -1;
      conn.registered := false;
      conn.connSend := false;
      log := log + [Closed(fd)];
    }

    // on_acceptable, when accept returned fd.
    method OnAcceptable(fd: int)
      requires Valid() && Inv(View()) && Enabled(View(), Accept(fd))
      modifies this`log, connections[0], connections[1]
      ensures Valid() && Inv(View()) && View() == OnAccept(old(View()), fd)
    {
      hide Inv;
      AcceptKeeps(View(), fd);
      var conn := GetConn(-1);
      if fd == -1 {
        return;
      }
      conn.fd := fd;
      conn.registered := false;
      conn.connSend := false;
      log := log + [Opened(fd)];
    }
  }
}
