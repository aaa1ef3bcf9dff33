// Stream reassembly of client/src/protocol.c: handle_tcp_message appends what recv
// returned to a buffer and cuts complete frames off its front.

module Stream {
  import opened Words
  import opened Codec
  import opened Transport

  const BUFF_SIZE := 0x1_0000

  // The padded size of the frame that starts a byte string.
  function FrameSize(b: seq<byte>): (n: nat)
    requires HEADER <= |b|
    ensures n >= HEADER
  {
    Padded(HEADER + Read16(b, 2, Big))
  }

  predicate Complete(b: seq<byte>) {
    HEADER <= |b| && FrameSize(b) <= |b|
  }

  // The first frame without its padding, and what follows it.
  function Frame(b: seq<byte>): (f: FrameBytes)
    requires Complete(b)
  {
    ReadPrefix(b, 2, HEADER + Read16(b, 2, Big));
    b[..HEADER + Read16(b, 2, Big)]
  }

  // A frame is as long as its header says.
  predicate Framed(f: seq<byte>) {
    HEADER <= |f| && |f| == HEADER + Read16(f, 2, Big)
  }

  type FrameBytes = f: seq<byte> | Framed(f) witness [0, 0, 0, 0]

  datatype Parsed = Parsed(frames: seq<FrameBytes>, rest: seq<byte>)

  // The one-shot parse of a byte string.
  function Parse(b: seq<byte>): (p: Parsed)
    ensures !Complete(p.rest) && |p.rest| <= |b|
    decreases |b|
  {
    if !Complete(b) then Parsed([], b)
    else
      var p := Parse(b[FrameSize(b)..]);
      Parsed([Frame(b)] + p.frames, p.rest)
  }

  // Parsing what is left of one chunk together with the next chunk continues the parse.
  lemma {:induction false} ParseSplit(a: seq<byte>, b: seq<byte>)
    ensures var p := Parse(a); var q := Parse(p.rest + b);
      Parse(a + b) == Parsed(p.frames + q.frames, q.rest)
    decreases |a|
  {
    hide Complete, Frame, FrameSize, Parse;
    if !Complete(a) {
      ParseNone(a);
      assert [] + Parse(a + b).frames == Parse(a + b).frames;
    } else {
      FrameFits(a);
      var n := FrameSize(a);
      CompletePrefix(a, b);
      assert (a + b)[n..] == a[n..] + b;
      ParseStep(a);
      ParseStep(a + b);
      ParseSplit(a[n..], b);
      var p := Parse(a[n..]);
      var q := Parse(p.rest + b);
      assert [Frame(a)] + (p.frames + q.frames) == [Frame(a)] + p.frames + q.frames;
    }
  }

  lemma ParseNone(b: seq<byte>)
    requires !Complete(b)
    ensures Parse(b) == Parsed([], b)
  {
  }

  lemma ParseStep(b: seq<byte>)
    requires Complete(b)
    ensures Parse(b) == Parsed([Frame(b)] + Parse(b[FrameSize(b)..]).frames, Parse(b[FrameSize(b)..]).rest)
  {
  }

  lemma FrameFits(b: seq<byte>)
    requires Complete(b)
    ensures HEADER <= |b| && HEADER <= FrameSize(b) <= |b|
  {
  }

  lemma CompletePrefix(a: seq<byte>, b: seq<byte>)
    requires Complete(a)
    ensures Complete(a + b) && FrameSize(a + b) == FrameSize(a) && Frame(a + b) == Frame(a)
  {
    ReadPrefix(a + b, 2, HEADER);
    ReadPrefix(a, 2, HEADER);
    assert (a + b)[..HEADER] == a[..HEADER];
  }

  // ---------------------------------------------------------------- chunks

  function Concat(chunks: seq<seq<byte>>): seq<byte> {
    if chunks == [] then [] else Concat(chunks[..|chunks| - 1]) + chunks[|chunks| - 1]
  }

  // What a connection has delivered, and holds, after receiving the chunks one by one.
  function Feed(chunks: seq<seq<byte>>): Parsed {
    if chunks == [] then Parsed([], [])
    else
      var p := Feed(chunks[..|chunks| - 1]);
      var q := Parse(p.rest + chunks[|chunks| - 1]);
      Parsed(p.frames + q.frames, q.rest)
  }

  // Chunk independence: however the stream is cut, the frames are those of the one-shot parse.
  lemma {:induction false} FeedIsParse(chunks: seq<seq<byte>>)
    ensures Feed(chunks) == Parse(Concat(chunks))
  {
    if chunks != [] {
      FeedIsParse(chunks[..|chunks| - 1]);
      ParseSplit(Concat(chunks[..|chunks| - 1]), chunks[|chunks| - 1]);
    }
  }

  // ---------------------------------------------------------------- streams of frames

  // A frame with its padding.
  function OnWire(f: FrameBytes): seq<byte> {
    f + Zeros(Padded(|f|) - |f|)
  }

  function FrameStream(fs: seq<FrameBytes>): seq<byte> {
    if fs == [] then [] else OnWire(fs[0]) + FrameStream(fs[1..])
  }

  lemma WireFrame(f: FrameBytes, b: seq<byte>)
    ensures Complete(OnWire(f) + b) && FrameSize(OnWire(f) + b) == |OnWire(f)| && Frame(OnWire(f) + b) == f
  {
    hide Read16, Zeros;
    var w := OnWire(f) + b;
    assert w[..|f|] == f;
    ReadPrefix(w, 2, |f|);
  }

  // The bytes b are the first k frames of a stream and a proper prefix of the next one,
  // and so they are parsed.
  ghost predicate Cut(fs: seq<FrameBytes>, b: seq<byte>, k: nat) {
    && k <= |fs|
    && Parse(b).frames == fs[..k]
    && b == FrameStream(fs[..k]) + Parse(b).rest
    && if k == |fs| then Parse(b).rest == [] else Parse(b).rest < OnWire(fs[k])
  }

  // Cut anywhere, a stream of frames has given exactly the frames that lie completely
  // before the cut, and leaves a proper prefix of the next one.
  lemma {:induction false} ParseStream(fs: seq<FrameBytes>, b: seq<byte>) returns (k: nat)
    requires b <= FrameStream(fs)
    ensures Cut(fs, b, k)
  {
    hide OnWire;
    if fs == [] {
      k := 0;
    } else if |b| < |OnWire(fs[0])| {
      k := 0;
      assert b == FrameStream(fs)[..|b|] == OnWire(fs[0])[..|b|];
      ShortOfFrame(fs[0], |b|);
    } else {
      var r := b[|OnWire(fs[0])|..];
      assert b == OnWire(fs[0]) + r && r <= FrameStream(fs[1..]);
      k := ParseStream(fs[1..], r);
      CutLater(fs, r, k);
      k := k + 1;
    }
  }

  lemma StreamPrefix(fs: seq<FrameBytes>, k: nat)
    requires k < |fs|
    ensures FrameStream(fs[..k + 1]) == OnWire(fs[0]) + FrameStream(fs[1..][..k])
    ensures fs[..k + 1] == [fs[0]] + fs[1..][..k]
  {
    hide OnWire;
    assert fs[..k + 1][1..] == fs[1..][..k];
  }

  lemma ParseFirst(f: FrameBytes, r: seq<byte>)
    ensures Parse(OnWire(f) + r) == Parsed([f] + Parse(r).frames, Parse(r).rest)
  {
    hide OnWire, Complete, Frame, FrameSize;
    WireFrame(f, r);
    assert (OnWire(f) + r)[|OnWire(f)|..] == r;
  }

  lemma CutLater(fs: seq<FrameBytes>, r: seq<byte>, k: nat)
    requires fs != [] && Cut(fs[1..], r, k)
    ensures Cut(fs, OnWire(fs[0]) + r, k + 1)
  {
    hide OnWire, FrameStream, Parse;
    ParseFirst(fs[0], r);
    StreamPrefix(fs, k);
  }

  lemma ShortOfFrame(f: FrameBytes, n: nat)
    requires n < |OnWire(f)|
    ensures !Complete(OnWire(f)[..n]) && OnWire(f)[..n] < OnWire(f)
  {
    WireFrame(f, []);
    assert OnWire(f) + [] == OnWire(f);
    if HEADER <= n {
      ReadPrefix(OnWire(f), 2, n);
    }
  }

  // ---------------------------------------------------------------- delivery

  // handle_incoming_message on a frame.
  function HandleFrame(f: FrameBytes, o: Order): Event {
    Handle(f, Read16(f, 0, Big), Read16(f, 2, Big), o)
  }

  function Events(frames: seq<FrameBytes>, o: Order): (es: seq<Event>)
    ensures |es| == |frames|
  {
    if frames == [] then [] else [HandleFrame(frames[0], o)] + Events(frames[1..], o)
  }

  // What a frame comes to: an error message for an unknown type, delivery of an acceptable
  // message as a struct in the receiver's byte order, and nothing otherwise.
  ghost predicate Answers(f: FrameBytes, e: Event, o: Order) {
    && (e.UnknownType? <==> !(1 <= Read16(f, 0, Big) <= 10))
    && (e.Delivered? <==> exists m :: Fits(m) && Acceptable(m) && f == Struct(m, Big))
    && (forall m :: Fits(m) && Acceptable(m) && f == Struct(m, Big) ==> e == Delivered(Struct(m, o)))
  }

  lemma {:induction false} EventsAnswer(fs: seq<FrameBytes>, o: Order)
    ensures forall i :: 0 <= i < |fs| ==> Answers(fs[i], Events(fs, o)[i], o)
  {
    hide Answers, HandleFrame;
    if fs != [] {
      assert Answers(fs[0], HandleFrame(fs[0], o), o) by {
        FrameAnswers(fs[0], o);
      }
      EventsAnswer(fs[1..], o);
    }
  }

  lemma FrameAnswers(f: FrameBytes, o: Order)
    ensures Answers(f, HandleFrame(f, o), o)
  {
    hide Read16, Handle, Struct, Acceptable;
    HandleAnswers(f, o);
  }

  // End to end: whatever the chunks, a connection that has received the first bytes of a
  // stream of frames has answered the first k of them, in order, each with one event of its
  // own, and is holding a proper prefix of the next.
  lemma FramesAnswered(fs: seq<FrameBytes>, chunks: seq<seq<byte>>, o: Order) returns (k: nat)
    requires Concat(chunks) <= FrameStream(fs)
    ensures k <= |fs| && |Feed(chunks).frames| == k
    ensures forall i :: 0 <= i < k ==> Answers(fs[i], Events(Feed(chunks).frames, o)[i], o)
    ensures Concat(chunks) == FrameStream(fs[..k]) + Feed(chunks).rest
    ensures if k == |fs| then Feed(chunks).rest == [] else Feed(chunks).rest < OnWire(fs[k])
  {
    hide OnWire, FrameStream, Concat, Feed, Answers, Parse, Events;
    FeedIsParse(chunks);
    k := ParseStream(fs, Concat(chunks));
    EventsAnswer(fs[..k], o);
  }

  // While the frames of a stream are no longer than the buffer, there is always room for
  // the next byte.
  lemma StreamHasRoom(fs: seq<FrameBytes>, chunks: seq<seq<byte>>)
    requires Concat(chunks) <= FrameStream(fs) && forall i :: 0 <= i < |fs| ==> |fs[i]| <= BUFF_SIZE
    ensures |Feed(chunks).rest| < BUFF_SIZE
  {
    hide FrameStream, Concat, Feed, Events, Answers, Zeros;
    var k := FramesAnswered(fs, chunks, Big);
  }

  // ---------------------------------------------------------------- streams of messages

  function WireStream(ms: seq<Datagram>): seq<byte>
  {
    if ms == [] then [] else Wire(ms[0]) + WireStream(ms[1..])
  }

  function BigStruct(m: Datagram): (f: FrameBytes)
    ensures f == Struct(m, Big)
  {
    HandleStruct(m, Big);
    Struct(m, Big)
  }

  function Structs(ms: seq<Datagram>): (fs: seq<FrameBytes>)
    ensures |fs| == |ms| && forall i :: 0 <= i < |ms| ==> fs[i] == BigStruct(ms[i])
  {
    if ms == [] then [] else [BigStruct(ms[0])] + Structs(ms[1..])
  }

  lemma WireIsFrame(m: Datagram)
    ensures OnWire(BigStruct(m)) == Wire(m)
  {
    hide Struct, Zeros, Length;
    HandleStruct(m, Big);
  }

  lemma {:induction false} WireStreamIsFrames(ms: seq<Datagram>)
    ensures FrameStream(Structs(ms)) == WireStream(ms)
  {
    hide Wire, OnWire, BigStruct;
    if ms != [] {
      WireIsFrame(ms[0]);
      WireStreamIsFrames(ms[1..]);
      assert Structs(ms)[1..] == Structs(ms[1..]);
    }
  }

  // What a message in a stream comes to.
  function Outcome(m: Datagram, o: Order): Event
  {
    if Acceptable(m) then Delivered(Struct(m, o)) else Ignored
  }

  lemma MessageOutcome(m: Datagram, e: Event, o: Order)
    requires Answers(BigStruct(m), e, o)
    ensures e == Outcome(m, o)
  {
    hide Read16, Struct, Acceptable, View, FixedSize, Length;
    HandleStruct(m, Big);
    if e.Delivered? {
      var n :| Fits(n) && Acceptable(n) && BigStruct(m) == Struct(n, Big);
      HandleStruct(n, Big);
      ViewStruct(m, Big);
      ViewStruct(n, Big);
    }
  }

  // The same end to end for messages: the first k of a stream are delivered, in order, each
  // as its decoder accepts it.
  lemma StreamDelivers(ms: seq<Datagram>, chunks: seq<seq<byte>>, o: Order) returns (k: nat)
    requires Concat(chunks) <= WireStream(ms)
    ensures k <= |ms| && |Feed(chunks).frames| == k
    ensures forall i :: 0 <= i < k ==> Events(Feed(chunks).frames, o)[i] == Outcome(ms[i], o)
    ensures Concat(chunks) == WireStream(ms[..k]) + Feed(chunks).rest
    ensures if k == |ms| then Feed(chunks).rest == [] else Feed(chunks).rest < Wire(ms[k])
  {
    hide Wire, OnWire, WireStream, FrameStream, Concat, Feed, Outcome, Events, Answers, BigStruct;
    WireStreamIsFrames(ms);
    k := FramesAnswered(Structs(ms), chunks, o);
    WireStreamIsFrames(ms[..k]);
    assert Structs(ms)[..k] == Structs(ms[..k]);
    forall i | 0 <= i < k ensures Events(Feed(chunks).frames, o)[i] == Outcome(ms[i], o) {
      MessageOutcome(ms[i], Events(Feed(chunks).frames, o)[i], o);
    }
    if k < |ms| {
      WireIsFrame(ms[k]);
    }
  }

  // The buffer is full, with nothing to read into, exactly when a frame longer than the
  // buffer has filled it; with lengths up to 65532 there is always room for a byte.
  lemma FullOnlyIfOversize(b: seq<byte>)
    requires |b| <= BUFF_SIZE
    ensures |Parse(b).rest| == BUFF_SIZE <==> |b| == BUFF_SIZE && Read16(b, 2, Big) > 65532
  {
    hide Read16;
    if Complete(b) {
      FrameFits(b);
      assert |Parse(b[FrameSize(b)..]).rest| < BUFF_SIZE;
    }
  }

  // ---------------------------------------------------------------- the receive buffer

  class TcpBuffer {
    const data: array<byte>
    var filledSize: nat

    predicate Valid()
      reads this
    {
      data.Length == BUFF_SIZE && filledSize <= data.Length
    }

    function Contents(): seq<byte>
      requires Valid()
      reads this, data
    {
      data[..filledSize]
    }

    constructor ()
      ensures Valid() && fresh(data) && Contents() == []
    {
      data := new byte[BUFF_SIZE](_ => 0);
      filledSize := 0;
    }

    // handle_tcp_message, with the bytes recv stored behind the filled part.
    method HandleTcp(chunk: seq<byte>, o: Order) returns (events: seq<Event>, closed: bool)
      requires Valid() && |chunk| <= data.Length - filledSize
      modifies this, data
      ensures Valid() && closed == (chunk == [])
      ensures closed ==> events == [] && Contents() == old(Contents())
      ensures !closed ==>
        var p := Parse(old(Contents()) + chunk);
        events == Events(p.frames, o) && Contents() == p.rest
    {
      hide Parse, Events, Read16, Frame, HandleFrame;
      events := [];
      closed := chunk == [];
      if closed {
        return;
      }
      Store(chunk);
      ghost var all := Contents();
      while filledSize >= HEADER
        invariant Valid()
        invariant events + Events(Parse(Contents()).frames, o) == Events(Parse(all).frames, o)
        invariant Parse(Contents()).rest == Parse(all).rest
        decreases filledSize
      {
        ghost var c := Contents();
        var expectedSize := HEADER + Read16(data[..], 2, Big);
        var expectedPadded := Padded(expectedSize);
        HeaderOfContents(c, data[..]);
        if filledSize < expectedPadded {
          break;
        }
        var e := HandleFirst(expectedSize, o);
        Remove(expectedPadded);
        FirstEvent(c, o);
        Regroup(events, e, Events(Parse(Contents()).frames, o));
        events := events + [e];
      }
      NothingComplete(Contents(), o);
    }

    // The body of the loop up to the call of handle_incoming_message.
    method HandleFirst(expectedSize: nat, o: Order) returns (e: Event)
      requires Valid() && Complete(Contents()) && expectedSize == HEADER + Read16(Contents(), 2, Big)
      ensures e == HandleFrame(Frame(Contents()), o)
    {
      hide Handle, Read16;
      ghost var frame := Frame(Contents());
      var msg := Copy(data, expectedSize, expectedSize);
      assert data[..expectedSize] == Contents()[..expectedSize];
      assert msg[..] == frame;
      Swap16At(msg, 0, o);
      Swap16At(msg, 2, o);
      e := HandleIncoming(msg, o, frame);
    }

    // recv
    method Store(chunk: seq<byte>)
      requires Valid() && |chunk| <= data.Length - filledSize
      modifies this, data
      ensures Valid() && Contents() == old(Contents()) + chunk
    {
      forall i | 0 <= i < |chunk| {
        data[filledSize + i] := chunk[i];
      }
      filledSize := filledSize + |chunk|;
    }

    // memmove over the frame that has been handled.
    method Remove(n: nat)
      requires Valid() && n <= filledSize
      modifies this, data
      ensures Valid() && Contents() == old(Contents())[n..]
    {
      forall i | 0 <= i < filledSize - n {
        data[i] := data[i + n];
      }
      filledSize := filledSize - n;
    }
  }

  lemma NothingComplete(c: seq<byte>, o: Order)
    requires !Complete(c)
    ensures Parse(c) == Parsed([], c) && Events(Parse(c).frames, o) == []
  {
  }

  lemma Regroup(a: seq<Event>, e: Event, b: seq<Event>)
    ensures a + ([e] + b) == (a + [e]) + b
  {
  }

  lemma HeaderOfContents(c: seq<byte>, data: seq<byte>)
    requires HEADER <= |c| && c <= data
    ensures Read16(data, 2, Big) == Read16(c, 2, Big)
    ensures Complete(c) <==> Padded(HEADER + Read16(data, 2, Big)) <= |c|
  {
  }

  lemma FirstEvent(c: seq<byte>, o: Order)
    requires Complete(c)
    ensures HEADER <= |c| && FrameSize(c) <= |c|
    ensures Events(Parse(c).frames, o) == [HandleFrame(Frame(c), o)] + Events(Parse(c[FrameSize(c)..]).frames, o)
    ensures Parse(c).rest == Parse(c[FrameSize(c)..]).rest
  {
    FrameFits(c);
    hide Frame, FrameSize, HandleFrame, Complete;
    var p := Parse(c[FrameSize(c)..]);
    assert ([Frame(c)] + p.frames)[1..] == p.frames;
  }
}
