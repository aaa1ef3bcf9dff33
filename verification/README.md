# Connect Four over UDP: a verified model

This project models the Connect Four program under `client/` of the repository: two clients
that play over an unreliable datagram network, the callback library that drives them, the
message codec, the board, and the server that brings two clients together. It proves what
each part promises and how the parts fit.

Every handler is one atomic step of a single-threaded event loop. Code that the source runs
in place on arrays, linked lists and globals is modelled by classes whose methods are proved
against functions on values; the theorems about whole runs are lemmas about those functions.

| file | part of the program |
|---|---|
| `Words.dfy` | fixed-width integers |
| `Board.dfy` | `client/lib/4clib.c`: gravity, legal games, the search for four in a row |
| `Timers.dfy` | `client/lib/cblib.c`: timeval arithmetic, the intrusive doubly linked timer list |
| `FdTable.dfy` | `client/lib/cblib.c`: the descriptor table, `read_fds` and `maxfd` |
| `EventLoop.dfy` | `client/lib/cblib.c`: `handle_event` with re-entrant callbacks, and whole runs of it |
| `Codec.dfy` | `client/src/protocol.c`: message layout, byte order, guards, round trip |
| `Transport.dfy` | `client/src/protocol.c`: sending and the UDP path on byte buffers in place |
| `Stream.dfy` | `client/src/protocol.c`: the TCP buffer and its framing loop |
| `Peer.dfy` | `client/src/client.c`: one client's state and handlers, retransmission backoff |
| `Client.dfy` | `client/src/client.c`: the same on the heap, using the timer list and the board |
| `Backoff.dfy` | how a timer restarted with doubling timeouts spaces its firings |
| `Process.dfy` | one running client: its handlers as the callbacks of the event loop |
| `TwoPeers.dfy` | two clients and the network between them: what holds in every run |
| `Conservation.dfy` | when the turn is conserved, and when it is lost for good |
| `Network.dfy` | two running clients with their clocks and timers, as an instance of `TwoPeers.dfy` |
| `Progress.dfy` | when a game of two running clients can go on |
| `Pairing.dfy` | `client/src/server.c`: the two connection slots, on values and as a log |
| `Server.dfy` | `client/src/server.c`: the same on the heap |
| `Session.dfy` | how server, codec and two-peer protocol meet |

## The main results

**The move protocol.** `TwoPeers` is a transition system whose steps are a number entered by
a player, the expiry of a retransmission timer, the arrival of a datagram, and the loss,
duplication or reordering of one in flight. Exactly one peer starts with `start` set, and
only the peer's datagrams arrive. In every run on any network the turns held by running
peers and the moves not yet accepted are at most one together; the two histories are equal
or differ by the sender's one unaccepted move, and equal histories mean boards that negate
each other; an unaccepted move is still queued; the two defensive branches of
`on_column_message` are never taken; the verdicts go to the right peers.

**Exact conservation, and its boundary.** An acknowledgement sets `state = WAIT`
unconditionally (line 164 of `client/src/client.c`). If it arrives when its receiver
already has the turn again, the turn is gone. `Conservation.TurnConserved` proves that on any
network this is the only way to lose it: while somebody is still playing, the count above is
exactly one if and only if no acknowledgement in the run came late. `TurnCanBeLost` gives a
run of six steps in which one does, `StallIsPermanent` proves that no continuation then makes
another move, and `OrderedIsOnTime` proves that without reordering, whatever is lost or
duplicated, none ever comes late.

**Running clients.** `Process` puts the handlers on the event loop, as the callbacks that
create, start, stop and delete timers while they run: in every run a message is
unacknowledged exactly when its timer is running, the client never touches a timer that does
not exist or deletes one that runs, and the k-th retransmission comes at least
1000 * (2^k - 1) ms after the first start. `Network` proves that two such clients are an
instance of `TwoPeers`, in which a message is retransmitted only when its timer expires, so
all its theorems hold of them. `Progress.GoesOnExactly` gives the exact condition under
which, from a reachable state, another move can still be made or accepted.

**The event loop.** Callbacks may start and stop timers and register and deregister
descriptors while they run. `EventLoop.RunsAreLawful` covers every run and every behaviour of
the callbacks: no timer fires before its deadline, each firing answers a start that was
neither stopped nor fired since, deadlines fire in order, every call goes to the callback
registered for its descriptor, and the table agrees with the descriptor set. A single call
is exact: a timer fires at its stop time if `select` is not late, and `ReadyIsServed` calls
each ready descriptor once. The environment
is part of the input by construction: a clock reading is the time since the last one, and
`select` reports a timeout only after it has elapsed.

**Codec and stream.** Messages lie in memory as structs in the host's byte order and are
converted in place. They are proved against one big-endian reference format, for hosts of
either order on both sides, and the decoder's guards accept exactly the packets of acceptable
messages. A well-formed packet of unknown type is answered with an error message and nothing
else is. A length above 65531 wraps the sender's uint16, and the message is lost. The
framing loop answers the same frames however the stream is cut.

**Backoff.** `next_timeout` doubles in an `unsigned int`. The doubling is exact up to the
22nd timeout, and from the 29th on the wrapped value is 0, so the timer then expires at once.

**Start flags.** The server tells two clients complementary start flags, but a client takes
its flag from its command line (line 253 of `client/src/client.c`), not from a peer select.
That the player passes on the flag the server gave is an assumption of `Session`.

## Model

| member | source | states |
|---|---|---|
| Board.PieceConservation | client/lib/4clib.c:54-59 | after any legal game a cell is filled exactly when it is below `next_row` of its column, and pieces, column heights and the two players' moves all count the moves, at most 42 |
| Board.WinnerSoundComplete | client/lib/4clib.c:61-95 | `winner` is 0 exactly when there is no four in a row in any of the eight directions, and otherwise names a colour that has one |
| Board.ScanComplete | client/lib/4clib.c:66-93 | a line in any of the eight directions is hit by one of the four loop nests |
| Board.NegateWinner | client/lib/4clib.c:61-95 | negating all cells of any board negates the result |
| Board.UnambiguousWinner | client/lib/4clib.c:61-95 | when play stops at the first nonzero result, every four in a row is the last mover's, so scan order cannot matter |
| Board.FlipNegates | client/lib/4clib.c:54-59 | the same moves recorded by both peers give boards that negate each other |
| Board.Grid.Init | client/lib/4clib.c:33-43 | the loops over the static arrays leave the empty board |
| Board.Grid.ValidMove | client/lib/4clib.c:45-52 | a column is valid exactly when it exists and is not full |
| Board.Grid.MakeMove | client/lib/4clib.c:54-59 | the piece lands on the next free row of its column and nothing else changes |
| Board.Grid.Winner | client/lib/4clib.c:61-95 | the nested loops in place compute the specified scan |
| Time.Before | client/lib/cblib.c:287-300 | the comparison of timevals is the order of instants |
| Time.StopTime | client/lib/cblib.c:335-342 | one carry suffices: the stop time is exactly now plus the timeout, in normal form |
| Time.SelectTimeout | client/lib/cblib.c:462-468 | one borrow suffices: the select timeout is exactly stop minus now, non-negative and in normal form |
| TimerQueue.Place | client/lib/cblib.c:349-362 | a timer goes behind all that do not stop later and before the first that does, so equal deadlines keep start order |
| TimerQueue.InsertKeeps | client/lib/cblib.c:344-369 | insertion keeps the list sorted and free of duplicates and adds exactly the new timer |
| TimerQueue.RemoveKeeps | client/lib/cblib.c:383-397 | removal keeps the list sorted and drops exactly that timer |
| TimerQueue.TimerList.StartTimer | client/lib/cblib.c:313-376 | on the heap: a stopped timer is inserted at its place into a well-formed doubly linked list, a started one or NULL changes nothing |
| TimerQueue.TimerList.StopTimer | client/lib/cblib.c:378-416 | on the heap: the timer is unlinked and cleared, and the list stays well formed |
| TimerQueue.TimerList.StartedListed | client/lib/cblib.c:322-333 | the list holds exactly the timers whose fields say they are started, once each |
| TimerQueue.TimerList.CreateTimer | client/lib/cblib.c:242-265 | a new timer is not started and the list is unchanged |
| TimerQueue.TimerList.DeleteTimer | client/lib/cblib.c:267-285 | only a stopped timer is given back, and the list is unchanged |
| FdTable.NeverFull | client/lib/cblib.c:113-130 | by pigeonhole a descriptor that is not registered always finds a free slot, so the table-full branch is dead |
| FdTable.RegisterAgrees | client/lib/cblib.c:89-131 | registering keeps descriptors distinct, `read_fds` their exact set, `maxfd` their maximum and `dummy` in the free slots, and puts the callback in the descriptor's slot |
| FdTable.DeregisterAgrees | client/lib/cblib.c:133-169 | deregistering keeps that agreement and frees exactly the descriptor's slot |
| FdTable.OthersStay | client/lib/cblib.c:89-169 | neither operation touches another descriptor's slot |
| FdTable.Registry.Init | client/lib/cblib.c:75-87 | the table starts with every slot free |
| FdTable.Registry.RegisterFd | client/lib/cblib.c:89-131 | the loops over the static table register a positive descriptor |
| FdTable.Registry.DeregisterFd | client/lib/cblib.c:133-169 | the loops over the static table deregister it and recompute `maxfd` |
| FdTable.Registry.RegisterStdin | client/lib/cblib.c:171-213 | the same for descriptor 0 |
| FdTable.Registry.DeregisterStdin | client/lib/cblib.c:215-240 | the same for descriptor 0 |
| EventLoop.NoneOverlooked | client/lib/cblib.c:474-475 | because `maxfd` is the maximum, `select` is asked for every registered descriptor and no other |
| EventLoop.RunsAreLawful | client/lib/cblib.c:436-506 | in every run, with callbacks that start and stop timers and change the table, the list and table invariants hold and every firing and every call is lawful |
| EventLoop.FiredInOrder | client/lib/cblib.c:452-486 | the deadlines fired over a whole run are non-decreasing |
| EventLoop.TimeIsMonotone | client/lib/cblib.c:313-343 | the instants of starts and firings over a whole run never go backwards |
| EventLoop.FiresOncePerStart | client/lib/cblib.c:457-486 | a timer that fired or was stopped fires again only after it is started again, and then for the deadline of that start |
| EventLoop.NoCallAfterDeregister | client/lib/cblib.c:488-495 | a descriptor deregistered earlier is called again only after it is registered again, through the new callback |
| EventLoop.CalledOncePerPass | client/lib/cblib.c:488-495 | in one pass a ready descriptor that is not deregistered is called exactly once, one that is not ready is not called |
| EventLoop.CallKeeps | client/lib/cblib.c:489-493 | the pass calls the callback registered for the descriptor, never `dummy` |
| EventLoop.FiresExactly | client/lib/cblib.c:452-486 | an overdue first timer fires at once, whatever `select` would report; otherwise a timeout fires it exactly at its stop time, plus what `select` is late |
| EventLoop.SleepsExactly | client/lib/cblib.c:462-475 | without a timer `select` has no timeout and only time passes |
| EventLoop.PassesExactly | client/lib/cblib.c:474-496 | unless a timer is overdue, the pass comes when `select` returns, over exactly the registered descriptors that are ready |
| EventLoop.ReadyIsServed | client/lib/cblib.c:436-498 | end to end, one call of `handle_event` calls a registered descriptor exactly once if it is ready and not at all otherwise, unless it is deregistered meanwhile |
| EventLoop.Dispatcher.Handle | client/lib/cblib.c:436-498 | the heap version of `handle_event` does what the function on values does, with callbacks that create, start, stop and delete timers and change the table |
| EventLoop.Dispatcher.Pass | client/lib/cblib.c:488-495 | the dispatch loop over the live table does what the function on values does |
| Codec.EncodeIsWire | client/src/protocol.c:203-252 | the struct of a message of length at most 65531, on a machine of either byte order, is sent as the one big-endian padded format |
| Codec.HandleStruct | client/src/protocol.c:49-113 | an acceptable message is handed on as a struct in the receiver's byte order, another of a known type is ignored |
| Codec.ReceiveCarried | client/src/protocol.c:162-201 | the UDP path does so for every packet that carries a message, whatever the padding bytes |
| Codec.ReceiveExact | client/src/protocol.c:179-201 | a packet is delivered exactly when it is the padded struct of an acceptable message |
| Codec.ReceiveAnswers | client/src/protocol.c:107-109 | a packet is answered with an error message exactly when it is well formed and its type is outside 1 to 10, and ignored exactly when it carries neither that nor an acceptable message |
| Codec.HandleAnswers | client/src/protocol.c:49-113 | the same three answers for a frame handed to `handle_incoming_message` |
| Codec.GuardIsAcceptable | client/src/protocol.c:52-104 | the length guards read off the wire are the condition on the message: name and password fill the data of a registration, a peer select has a name of four bytes or more |
| Codec.OverlongIsLost | client/src/protocol.c:206-211 | a message with a length above 65531 is truncated to its header, because the uint16 size wraps, and every receiver ignores it |
| Codec.RoundTrip | client/src/protocol.c:203-252 | sending and receiving between machines of any two byte orders yields the same message |
| Codec.ViewStruct | client/src/protocol.h:24-88 | a callback reads back the fields and payload of the message that was sent |
| Codec.GuardedIsStruct | client/src/protocol.c:49-113 | every byte string that passes its guard is the struct of the message it is read as |
| Transport.SendMessage | client/src/protocol.c:203-252 | the in-place conversion of a copied buffer sends the specified bytes, also when the uint16 size wraps |
| Transport.HandleIncoming | client/src/protocol.c:49-113 | the guards and in-place conversions give the specified event |
| Transport.HandleUdp | client/src/protocol.c:162-201 | the datagram path in place gives the specified event |
| Stream.ParseSplit | client/src/protocol.c:136-159 | what is left of one chunk and the next chunk continue the parse |
| Stream.FeedIsParse | client/src/protocol.c:116-160 | for every split into chunks the frames and the residue are those of the one-shot parse |
| Stream.ParseStream | client/src/protocol.c:138-159 | cut anywhere, a stream of frames of any type has given exactly its complete frames and the residue is a proper prefix of the next |
| Stream.FramesAnswered | client/src/protocol.c:116-160 | end to end, whatever the chunks, each complete frame has one event, in order: an error message for an unknown type, delivery of an acceptable message, nothing otherwise |
| Stream.StreamDelivers | client/src/protocol.c:116-160 | the same for messages: the first of a stream are delivered in order, each as its decoder accepts it |
| Stream.StreamHasRoom | client/src/protocol.c:125-148 | while a stream's frames have lengths up to 65532, whatever the chunks, there is room for the next byte |
| Stream.FullOnlyIfOversize | client/src/protocol.c:125-148 | there is room for the next byte unless a frame with length above 65532 has filled the buffer |
| Stream.TcpBuffer.HandleTcp | client/src/protocol.c:116-160 | the loop over the receive buffer delivers the frames of buffer plus chunk and keeps the residue; an empty read is a close |
| Peer.ColumnAnswers | client/src/client.c:122-158 | only the expected column message changes the peer; an old one is not answered, and any other, also one that leaves a gap or is invalid, is answered with the sequence accepted last |
| Peer.AckForgets | client/src/client.c:160-175 | an acknowledgement takes exactly its message out of the list and sets WAIT; one that names no queued message changes nothing |
| Peer.TimeoutExact | client/src/client.c:54-55 | the doubled timeout is exact for the first 22 retransmissions and never after |
| Peer.TimeoutCollapses | client/src/client.c:54-55 | the wrapped timeout is 0 from the 29th on, and only from then on |
| Peer.BackoffSchedule | client/src/client.c:44-56 | the n-th retransmission of a message leaves the (n+1)-th timeout and changes nothing else |
| Process.RetransmissionsBackOff | client/src/client.c:44-56 | in every run of a client, whatever is entered and arrives, the k-th retransmission of a message, k up to 23, comes at least 1000 * (2^k - 1) ms after its timer was first started |
| Process.FiringTransmits | client/src/client.c:44-56 | the firing of a message's timer sends that message and is answered by exactly one start, for the timeout that follows its starts so far |
| Process.TimersRun | client/src/client.c:58-73 | in every run of a client a message is unacknowledged exactly when its timer is running, and the heartbeat's timer always is |
| Process.HeartbeatsApart | client/src/client.c:107-120 | in every run two heartbeats are at least their interval apart |
| Process.ServeOrderly | client/src/client.c:44-175 | every call of `handle_event` keeps the list, the timers and their timeouts in step, and uses no timer that does not exist and deletes none that runs |
| Process.HandleEvents | client/lib/cblib.c:500-506 | the loop on the heap dispatcher runs the client's callbacks as specified until it exits |
| Client.Client.TransmitColumnMessage | client/src/client.c:44-56 | the message is sent, its timer started for its timeout, the timeout doubled; afterwards every queued message has a running timer |
| Client.Client.OnTimer | client/src/client.c:44-56 | an expired timer retransmits its message and is started again for now plus the timeout |
| Client.Client.SendColumnMessage | client/src/client.c:58-73 | a new message is appended to the linked list, the sequence advances, and one new timer exists that is started for the first timeout |
| Client.Client.OnStdin | client/src/client.c:75-105 | on the heap: a number entered out of turn or invalid changes nothing, no timer either; another is played, queued and sent with a new running timer |
| Client.Client.OnColumn | client/src/client.c:122-158 | on the heap: gap, old and expected messages are handled as specified |
| Client.Client.OnAck | client/src/client.c:160-175 | on the heap: the first message with this sequence is unlinked, its timer is neither running nor existing any more, every other timer runs on, and the state becomes WAIT; without such a message nothing changes |
| Client.Client.TimersAreMessages | client/src/client.c:58-73 | between handlers the timers that exist, and those that run, are exactly those of the queued messages |
| TwoPeers.TurnSafety | client/src/client.c:75-175 | in every run on any network the turns held and the moves outstanding are at most one, so the players never both hold the turn |
| TwoPeers.BoardAgreement | client/src/client.c:94-149 | the histories are equal or the sender is ahead by its one unaccepted move; when equal the boards negate each other |
| Network.RunsAreProtocolRuns | client/src/client.c:44-175 | every run of two running clients is a run of the two-peer protocol, without reordering if the network does not reorder |
| Network.EventRefines | client/lib/cblib.c:436-498 | a call of `handle_event` by a client is at most two steps of the protocol: a retransmission by the timer that expired, or a move entered and a datagram read |
| Network.RetransmissionSafety | client/src/client.c:58-73 | acknowledgements in flight name accepted moves; the list is strictly increasing and below `next_sequence`; exactly the queued messages have a running timer; an unaccepted move is queued with its timer running |
| TwoPeers.DefensiveBranchesDead | client/src/client.c:126-146 | no message in flight ever takes the sequence-gap branch or the receiver's invalid-move branch |
| TwoPeers.CountersCountPieces | client/src/client.c:72-148 | the two counters of each peer add up to its pieces, at most 42, so they never wrap |
| TwoPeers.Verdicts | client/src/client.c:98-154 | a winner has four of its own colour and a loser of the other's, never both win or both lose, and a winner whose peer still plays has its move outstanding |
| TwoPeers.ExpectedMove | client/src/client.c:122-146 | the expected column message is the sender's outstanding move and valid on the receiver's board |
| TwoPeers.AcceptIsLocal | client/src/client.c:137-157 | accepting a move acknowledges it, plays it, advances the counter, and gives the turn or ends the game |
| TwoPeers.MoveIsLocal | client/src/client.c:94-103 | making a move plays it, queues it, sends it under the next sequence, gives up the turn, and leaves the state TURN_ACK unless it wins |
| Conservation.TurnConserved | client/src/client.c:160-164 | on any network, while somebody plays, the turn count is exactly one if and only if no acknowledgement came late; otherwise both peers wait with nothing outstanding |
| Conservation.NextToken | client/src/client.c:160-164 | a step keeps the turn unless it delivers a late acknowledgement, and then loses it |
| Conservation.StallIsPermanent | client/src/client.c:84-164 | once the turn is lost, no continuation makes another move |
| Conservation.TurnCanBeLost | client/src/client.c:160-164 | a concrete run with one reordering loses the turn |
| Conservation.OrderedIsOnTime | client/src/client.c:137-171 | on a network that loses and duplicates but does not reorder, no acknowledgement is late: none follows the sender's outstanding reply |
| Conservation.OrderedConservesTurn | client/src/client.c:75-175 | there the turn count is exactly one while somebody plays |
| Conservation.StuckForever | client/src/client.c:75-175 | where no move is due, no continuation on any network makes or accepts one |
| Conservation.RoomLeft | client/lib/4clib.c:45-52 | in a game there is a valid move exactly when fewer than 42 have been made |
| Progress.MoveCanArrive | client/src/client.c:44-73 | an outstanding move of either side can still be accepted by a playing peer, if it is in flight or, by its running timer, if its sender is playing, even if all in flight is lost |
| Progress.GoesOnExactly | client/src/client.c:44-175 | from a reachable state another move can be made or accepted if and only if a playing peer has the turn on a board that is not full, or a move is outstanding to a playing peer and is in flight or its sender is playing |
| Pairing.RunsPair | client/src/server.c:53-168 | in every run the descriptors in the slots are distinct and exactly those opened and not closed since; free slots are clean; each connection gets at most one peer select; peer selects come in exchanges of both registrations with complementary start flags, each followed by the shutdown of both; a registration on an open, unregistered connection is answered at once, according to name and password, and there are no other answers |
| Pairing.AcceptOpens | client/src/server.c:158-168 | a new connection takes the first free slot, unregistered and unpaired, and the other slot is as it was |
| Pairing.HangupFrees | client/src/server.c:130-147 | the end of an open connection frees its slot, leaves the other as it was, and a new connection can be accepted; on a descriptor that is not open it does nothing |
| Pairing.PairsExactlyWhen | client/src/server.c:72-128 | a registration pairs the clients exactly when it is accepted and the other slot is registered and not yet paired; the client in the first slot is the one told to start |
| Pairing.PeerSelectReadable | client/src/server.c:60-70 | the peer select fits its uint16 length and is decoded when the name has four bytes or more, and ignored otherwise |
| Pairing.ShortNameIsIgnored | client/src/server.c:93-128 | a concrete run in which a name of one byte is registered and paired, and its peer select ignored |
| Server.RegistrationServer.GetConn | client/src/server.c:53-58 | the loop finds the first slot with the descriptor |
| Server.RegistrationServer.PeerSelectMsg | client/src/server.c:60-70 | the message describes the slot and its uint16 length does not wrap |
| Server.RegistrationServer.ConnectClients | client/src/server.c:72-91 | two registered and unpaired slots are sent each other's data and marked |
| Server.RegistrationServer.OnRegistration | client/src/server.c:93-128 | a registration on a known, unregistered connection is stored and acknowledged, or rejected when name and password differ |
| Server.RegistrationServer.CloseConnection | client/src/server.c:130-147 | the slot is freed and clean |
| Server.RegistrationServer.OnAcceptable | client/src/server.c:158-168 | a new connection takes a free slot, unregistered and unpaired |
| Session.PairedClientsBegin | client/src/server.c:72-91 | in every run of the server a peer select has a partner on another connection, and clients started with the two flags are the initial state of the two-peer protocol |
| Session.DatagramsSurvive | client/src/protocol.c:162-252 | every datagram of the two-peer protocol reaches the other handler with the same fields |

## Left out

- `Praktikum1`, `Praktikum2`, `Praktikum3`, `client/src/socket_util.c`: exercises and socket wrappers; they would only add easier members.
- System calls (`socket`, `accept`, `recv`, `send`, `select`, `gettimeofday`) are inputs: a failed `send` is a loss, failed `recv` and `select` calls are excluded, the clock is positive and monotone.
- Printing, `print_board`, DEBUG branches, `atoi` and reading from stdin: the number entered is an arbitrary integer.
- Heartbeat datagrams, the stale-peer warning and error messages: they do not touch the game or the sequence state. The heartbeat's timer is in the model.
- Memory exhaustion and timer descriptions.
- `exit(0)` outside a win or a loss, both peers started with the same flag, and forged datagrams.
- Eventual acknowledgement of every move: the code does not acknowledge an old move again (lines 130 to 135 of `client/src/client.c`), so it does not hold; nor does delivery of a winning move after the winner has exited.
- The heap `Client` and the heap `Dispatcher` have a timer list each; they meet on values, in `Process`, which both refine.
- EventLoop.Dispatcher.Handle: takes callbacks that use existing timers and delete stopped ones, because otherwise the code reads freed memory; `Process.ServeOrderly` proves it of the client. The same holds for `EventLoop.Dispatcher.Pass`.
- TimerQueue.TimerList.DeleteTimer: takes a stopped timer, because freeing a linked one leaves the list dangling; `Process.ServeOrderly` proves that the client deletes no other.
- Callbacks of `handle_tcp_message` that close the connection in the middle of a chunk, and reuse of a slot's receive buffer, which is not emptied on close (lines 130 to 139 of `client/src/server.c`).
- The server's calls of the descriptor table, its heartbeat answers and its answers to unsupported messages.
- Server.RegistrationServer.OnAcceptable: takes a free slot as a precondition, because the code does not check for a missing one.
- Transport.SendMessage: takes as preconditions that the struct is as long as the size the code copies and that the padded copy has room for the fields of its type, because otherwise the code reads or writes past an allocation.
- Client.Client.OnStdin: takes the process to be running, because it is gone after exit; the same holds for the other handlers.
- Process.RetransmissionsBackOff: counts from the first start of the timer, which `transmit_column_message` makes right after the first transmission.
