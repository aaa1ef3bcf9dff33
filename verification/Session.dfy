// How the parts of the program meet: the server's start flags set up the two-peer system,
// and the datagrams of that system survive the codec.

module Session {
  import opened Codec
  import opened Peer
  import TwoPeers
  import Pairing

  // In every run of the server a peer select has a partner on another connection, and
  // clients started with the flags of the two are the initial state of the two-peer
  // protocol: exactly one of them has the turn.
  lemma PairedClientsBegin(es: seq<Pairing.Input>, i: nat) returns (j: nat)
    requires i < |Pairing.Run(es).log| && Pairing.IsSelect(Pairing.Run(es).log[i])
    ensures var log := Pairing.Run(es).log;
      && j < |log| && Pairing.IsSelect(log[j]) && log[j].fd != log[i].fd
      && TwoPeers.System(Begin(log[i].message.start != 0), Begin(log[j].message.start != 0), [], [])
         == TwoPeers.Init(log[i].message.start != 0)
  {
    hide Pairing.Run, Pairing.SlotOk, Pairing.SelectsSinceOpen, Pairing.AcceptedOn;
    hide Pairing.Decodable, Pairing.Authentic, Begin;
    Pairing.RunsPair(es);
    var log := Pairing.Run(es).log;
    if Pairing.Exchange(log, i) {
      ExchangeFlags(log, i);
      j := i + 1;
    } else {
      ExchangeFlags(log, i - 1);
      j := i - 1;
    }
  }

  lemma ExchangeFlags(log: Pairing.Log, i: int)
    requires Pairing.Exchange(log, i)
    ensures 0 <= i < |log| - 1 && Pairing.IsSelect(log[i]) && Pairing.IsSelect(log[i + 1])
    ensures log[i].message.start == 0 && log[i + 1].message.start == 1 && log[i].fd != log[i + 1].fd
  {
    hide Pairing.AcceptedOn, Pairing.Decodable, Pairing.Authentic;
  }

  // Every datagram a peer has in flight, encoded on its machine and decoded on the other's,
  // reaches the other's handler with the same fields.
  lemma DatagramsSurvive(p: Peer, m: Message, sender: Order, receiver: Order)
    requires TwoPeers.Honest(p, m)
    ensures Fits(m) && CanSend(Struct(m, sender), sender)
    ensures Receive(Encode(Struct(m, sender), sender), receiver) == Delivered(Struct(m, receiver))
    ensures FixedSize(TypeOf(m)) <= |Struct(m, receiver)| && View(Struct(m, receiver), TypeOf(m), receiver) == m
  {
    hide Receive, Encode, CanSend, Struct, View, TwoPeers.Honest;
    SmallMessage(p, m);
    RoundTrip(m, [], sender, receiver);
    assert Struct(m, sender) + [] == Struct(m, sender);
    ViewStruct(m, receiver);
  }

  lemma SmallMessage(p: Peer, m: Message)
    requires TwoPeers.Honest(p, m)
    ensures Sendable(m) && Fits(m) && Acceptable(m)
  {
    BodyLength(m, Big);
  }
}
