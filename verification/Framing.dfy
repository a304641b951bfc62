/** Messages over a byte stream: sending and receiving in pieces of any size. */
module Framing {
  import opened Numbers
  import opened Text
  import opened HashTable
  import opened Wire
  import opened RoundTrip
  import opened Header
  import opened Writer
  import opened Reader

  /** A message that arrives: well-formed, its names not null, and not too long for
      its header. */
  ghost predicate Deliverable(m: Mesg) {
    MesgSendable(m) && DataNamed(m.data) && |Serialized(m)| <= 9999
  }

  /** The bytes of messages sent one behind the other. */
  function Stream(sent: seq<Mesg>): string {
    if sent == [] then [] else Serialized(sent[0]) + Stream(sent[1..])
  }

  ghost predicate AllDeliverable(sent: seq<Mesg>) {
    forall m :: m in sent ==> Deliverable(m)
  }

  lemma {:induction false} StreamSnoc(sent: seq<Mesg>, m: Mesg)
    requires AllDeliverable(sent + [m])
    ensures AllDeliverable(sent) && Stream(sent + [m]) == Stream(sent) + Serialized(m)
  {
    hide Deliverable, Serialized;
    forall x | x in sent
      ensures Deliverable(x)
    {
      assert x in sent + [m];
    }
    assert m in sent + [m];
    if sent == [] {
      assert [m][1..] == [];
      assert Serialized(m) + [] == Serialized(m) == [] + Serialized(m);
    } else {
      assert (sent + [m])[1..] == sent[1..] + [m];
      StreamSnoc(sent[1..], m);
      Assoc(Serialized(sent[0]), Stream(sent[1..]), Serialized(m));
    }
  }

  lemma FramedText(total: nat, body: string, rest: string)
    requires total == HDRLEN + |body| <= 9999
    ensures var text := PrintHeader(total) + body;
            var s := text + rest;
            |text| == total && |s| == total + |rest| && ReadHeader(s[..HDRLEN]) == Some(total)
            && s[..total] == text && s[total..] == rest
  {
    hide PrintHeader, ReadHeader;
    var text := PrintHeader(total) + body;
    HeaderReadIff(total, []);
    assert (text + rest)[..HDRLEN] == PrintHeader(total) + [];
    assert (text + rest)[..total] == text && (text + rest)[total..] == rest;
  }

  /** The first message of a stream: its header gives its length, and what is in
      front of the rest is its text. */
  ghost predicate BeginsWith(s: string, text: string, rest: string) {
    && HDRLEN <= |text| && s == text + rest
    && ReadHeader(s[..HDRLEN]) == Some(|text|) && s[..|text|] == text && s[|text|..] == rest
  }

  lemma FirstOfStream(m: Mesg, rest: string)
    requires Deliverable(m)
    ensures BeginsWith(Serialized(m) + rest, Serialized(m), rest)
    ensures Deserialize(Serialized(m)) == Some(ArrivedMesg(m))
  {
    hide MesgSendable, DataNamed, ArrivedMesg, Deserialize, ReadHeader, PrintBody, PrintHeader, SameMesg;
    MesgRoundTrip(m);
    FramedText(|Serialized(m)|, PrintBody(m), rest);
  }

  // ---- Writer, channel and reader -----------------------------------------

  /** One end writing, the other reading: what the writer still has to push, what is
      in the channel, and what the reader has of the message it is reading. */
  datatype Net = Net(
    sent: seq<Mesg>, outgoing: string, channel: string,
    reading: bool, want: int, got: string, delivered: seq<Option<Mesg>>)

  datatype Event =
    | Send(m: Mesg)   // mesg_send begins, once the message before is written
    | Push(n: nat)    // send() takes up to n bytes
    | Peek            // mesg_recv looks at a whole header
    | Pull(n: nat)    // recv() gives up to n bytes

  function Step(net: Net, e: Event): Net {
    match e
    case Send(m) =>
      if net.outgoing == [] then net.(sent := net.sent + [m], outgoing := Serialized(m)) else net
    case Push(n) =>
      var k := Min(n, |net.outgoing|);
      net.(outgoing := net.outgoing[k..], channel := net.channel + net.outgoing[..k])
    case Peek =>
      if net.reading || |net.channel| < HDRLEN then net
      else
        var header := ReadHeader(net.channel[..HDRLEN]);
        if header.None? then net.(delivered := net.delivered + [None])
        else net.(reading := true, want := header.value, got := [])
    case Pull(n) =>
      if !net.reading || net.want < |net.got| then net
      else
        var k := Min(n, Min(net.want - |net.got|, |net.channel|));
        Pulled(net.(got := net.got + net.channel[..k], channel := net.channel[k..]))
  }

  /** Once all bytes are there the message is parsed. */
  function Pulled(net: Net): Net {
    if |net.got| == net.want then
      net.(reading := false, got := [], delivered := net.delivered + [Deserialize(net.got)])
    else net
  }

  function Nothing(): Net {
    Net([], [], [], false, 0, [], [])
  }

  /** Everything undelivered is, in order, in the reader's hands, the channel and the
      writer's; what has been delivered is what was sent first, in order. */
  ghost predicate InOrder(net: Net) {
    && AllDeliverable(net.sent)
    && |net.delivered| <= |net.sent|
    && (forall i :: 0 <= i < |net.delivered| ==> net.delivered[i] == Some(ArrivedMesg(net.sent[i])))
    && net.got + net.channel + net.outgoing == Stream(net.sent[|net.delivered|..])
    && (if net.reading then
          && |net.delivered| < |net.sent|
          && |net.got| < net.want == |Serialized(net.sent[|net.delivered|])|
        else net.got == [])
  }

  lemma SendKeeps(net: Net, m: Mesg)
    requires InOrder(net) && Deliverable(m)
    ensures InOrder(Step(net, Send(m)))
  {
    hide Deliverable, Serialized, Stream, ArrivedMesg, Deserialize, ReadHeader;
    if net.outgoing == [] {
      var d := |net.delivered|;
      var left := net.sent[d..];
      assert (net.sent + [m])[d..] == left + [m];
      StreamSnoc(left, m);
      assert net.got + net.channel + [] == net.got + net.channel;
    }
  }

  lemma PushKeeps(net: Net, n: nat)
    requires InOrder(net)
    ensures InOrder(Step(net, Push(n)))
  {
    hide AllDeliverable, Serialized, Stream, ArrivedMesg;
    var k := Min(n, |net.outgoing|);
    assert net.outgoing == net.outgoing[..k] + net.outgoing[k..];
    Assoc(net.got + net.channel, net.outgoing[..k], net.outgoing[k..]);
    Assoc(net.got, net.channel, net.outgoing[..k]);
  }

  /** What is still to come begins with the first undelivered message. */
  lemma StreamBegins(net: Net) returns (rest: string)
    requires InOrder(net) && |net.delivered| < |net.sent|
    ensures Deliverable(net.sent[|net.delivered|])
    ensures AllDeliverable(net.sent[|net.delivered| + 1..]) && rest == Stream(net.sent[|net.delivered| + 1..])
    ensures net.got + net.channel + net.outgoing == Serialized(net.sent[|net.delivered|]) + rest
  {
    hide Deliverable, Serialized;
    var d := |net.delivered|;
    assert net.sent[d..][0] == net.sent[d] && net.sent[d..][1..] == net.sent[d + 1..];
    rest := Stream(net.sent[d + 1..]);
  }

  lemma NoneLeft(net: Net)
    requires InOrder(net) && |net.delivered| == |net.sent|
    ensures net.got == net.channel == net.outgoing == []
  {
    hide Deliverable, AllDeliverable, ArrivedMesg;
    assert net.sent[|net.delivered|..] == [];
    assert |net.got + net.channel + net.outgoing| == 0;
  }

  lemma PeekKeeps(net: Net)
    requires InOrder(net)
    ensures InOrder(Step(net, Peek))
  {
    hide Deliverable, AllDeliverable, Serialized, Stream, ReadHeader, ArrivedMesg, Deserialize;
    if !net.reading && |net.channel| >= HDRLEN {
      if |net.delivered| == |net.sent| {
        NoneLeft(net);
      }
      var rest := StreamBegins(net);
      var m := net.sent[|net.delivered|];
      FirstOfStream(m, rest);
      assert [] + net.channel + net.outgoing == net.channel + net.outgoing;
      assert (net.channel + net.outgoing)[..HDRLEN] == net.channel[..HDRLEN];
      assert ReadHeader(net.channel[..HDRLEN]) == Some(|Serialized(m)|);
    }
  }

  lemma PullKeeps(net: Net, n: nat)
    requires InOrder(net)
    ensures InOrder(Step(net, Pull(n)))
  {
    hide Deliverable, AllDeliverable, Serialized, Stream, ReadHeader, ArrivedMesg, Deserialize;
    if net.reading {
      var m := net.sent[|net.delivered|];
      var rest := StreamBegins(net);
      FirstOfStream(m, rest);
      var k := Min(n, Min(net.want - |net.got|, |net.channel|));
      var got := net.got + net.channel[..k];
      assert net.channel == net.channel[..k] + net.channel[k..];
      Assoc(net.got, net.channel[..k], net.channel[k..]);
      if |got| == net.want {
        Assoc(got, net.channel[k..], net.outgoing);
        SamePrefix(got, net.channel[k..] + net.outgoing, Serialized(m), rest);
        Assoc([], net.channel[k..], net.outgoing);
        assert [] + (net.channel[k..] + net.outgoing) == net.channel[k..] + net.outgoing;
        Completes(net, got, net.channel[k..], m, rest);
      }
    }
  }

  /** The last byte of a message: it is parsed and the next one is first. */
  lemma Completes(net: Net, got: string, channel: string, m: Mesg, rest: string)
    requires InOrder(net) && net.reading && m == net.sent[|net.delivered|] && Deliverable(m)
    requires rest == Stream(net.sent[|net.delivered| + 1..]) && [] + channel + net.outgoing == rest
    requires got == Serialized(m) && Deserialize(got) == Some(ArrivedMesg(m))
    ensures InOrder(net.(channel := channel, reading := false, got := [],
                         delivered := net.delivered + [Deserialize(got)]))
  {
    hide Deliverable, AllDeliverable, Serialized, Stream, ArrivedMesg, Deserialize;
  }

  lemma SamePrefix(a: string, x: string, b: string, y: string)
    requires a + x == b + y && |a| == |b|
    ensures a == b && x == y
  {
    assert (a + x)[..|a|] == a && (b + y)[..|b|] == b;
    assert (a + x)[|a|..] == x && (b + y)[|b|..] == y;
  }

  ghost predicate Allowed(e: Event) {
    e.Send? ==> Deliverable(e.m)
  }

  lemma StepKeeps(net: Net, e: Event)
    requires InOrder(net) && Allowed(e)
    ensures InOrder(Step(net, e))
  {
    hide Deliverable, InOrder, Step;
    match e
    case Send(m) => SendKeeps(net, m);
    case Push(n) => PushKeeps(net, n);
    case Peek => PeekKeeps(net);
    case Pull(n) => PullKeeps(net, n);
  }

  ghost predicate IsRun(nets: seq<Net>, events: seq<Event>) {
    && |nets| == |events| + 1 && nets[0] == Nothing()
    && forall n :: 0 <= n < |events| ==> Follows(nets[n], events[n], nets[n + 1])
  }

  ghost predicate Follows(net: Net, e: Event, next: Net) {
    Allowed(e) && next == Step(net, e)
  }

  lemma NothingInOrder()
    ensures InOrder(Nothing())
  {
    hide Deliverable;
  }

  /** However sending, writing and reading are cut up and interleaved, the messages
      come out complete, in order and unchanged. */
  lemma {:induction false} DeliveredInOrder(nets: seq<Net>, events: seq<Event>, n: nat)
    requires IsRun(nets, events) && n < |nets|
    ensures InOrder(nets[n])
  {
    if n == 0 {
      NothingInOrder();
    }
    hide Deliverable, InOrder, Step, Allowed, Nothing;
    if n > 0 {
      DeliveredInOrder(nets, events, n - 1);
      assert Follows(nets[n - 1], events[n - 1], nets[n]);
      StepKeeps(nets[n - 1], events[n - 1]);
    }
  }

  /** And when nothing is in transit any more, all of them have come out. */
  lemma NothingLeftOver(nets: seq<Net>, events: seq<Event>, n: nat)
    requires IsRun(nets, events) && n < |nets|
    requires nets[n].outgoing == [] && nets[n].channel == [] && nets[n].got == []
    ensures |nets[n].delivered| == |nets[n].sent|
    ensures forall i :: 0 <= i < |nets[n].sent| ==> nets[n].delivered[i] == Some(ArrivedMesg(nets[n].sent[i]))
  {
    hide Deliverable, AllDeliverable, Serialized, ArrivedMesg, Deserialize, ReadHeader;
    DeliveredInOrder(nets, events, n);
    var net := nets[n];
    if |net.delivered| < |net.sent| {
      var rest := StreamBegins(net);
      FirstOfStream(net.sent[|net.delivered|], rest);
    }
  }

  /** Until then somebody can go on: the writer has bytes to push, or the reader can
      look at a whole header or pull bytes. */
  lemma SomebodyCanGoOn(nets: seq<Net>, events: seq<Event>, n: nat)
    requires IsRun(nets, events) && n < |nets| && |nets[n].delivered| < |nets[n].sent|
    ensures var net := nets[n];
            || net.outgoing != []
            || (!net.reading && |net.channel| >= HDRLEN)
            || (net.reading && net.channel != [])
  {
    hide Deliverable, AllDeliverable, Serialized, ArrivedMesg, Deserialize, ReadHeader;
    DeliveredInOrder(nets, events, n);
    var net := nets[n];
    var rest := StreamBegins(net);
    FirstOfStream(net.sent[|net.delivered|], rest);
    assert |net.got + net.channel + net.outgoing| == |net.got| + |net.channel| + |net.outgoing|;
  }

  // ---- The socket routines -------------------------------------------------

  /** What one call of send or recv does: it is interrupted by a signal, fails,
      moves nothing because the peer is gone, or moves up to so many bytes. */
  datatype Io = Interrupted | Broken | Gone | Moves(n: nat)

  /** No failure: calls are only interrupted or move at least a byte. */
  predicate Smooth(tape: seq<Io>) {
    forall io :: io in tape ==> io.Interrupted? || (io.Moves? && io.n > 0)
  }

  /** The run's steps that one socket_write makes. */
  function Pushes(net: Net, pieces: seq<nat>): Net {
    if pieces == [] then net else Step(Pushes(net, pieces[..|pieces| - 1]), Push(pieces[|pieces| - 1]))
  }

  /** The run's steps that one socket_read makes. */
  function Pulls(net: Net, pieces: seq<nat>): Net {
    if pieces == [] then net else Step(Pulls(net, pieces[..|pieces| - 1]), Pull(pieces[|pieces| - 1]))
  }

  lemma OnePush(net: Net, pieces: seq<nat>, k: nat)
    requires k <= |Pushes(net, pieces).outgoing|
    ensures var was := Pushes(net, pieces);
            Pushes(net, pieces + [k]) == was.(outgoing := was.outgoing[k..], channel := was.channel + was.outgoing[..k])
  {
    assert (pieces + [k])[..|pieces|] == pieces;
  }

  lemma OnePull(net: Net, pieces: seq<nat>, k: nat)
    requires var was := Pulls(net, pieces);
             was.reading && 0 <= was.want - |was.got| && k <= was.want - |was.got| && k <= |was.channel|
    ensures var was := Pulls(net, pieces);
            Pulls(net, pieces + [k]) == Pulled(was.(got := was.got + was.channel[..k], channel := was.channel[k..]))
  {
    assert (pieces + [k])[..|pieces|] == pieces;
  }

  /** The reader behind the first `moved` bytes of the message it is reading. */
  function Filled(net: Net, moved: nat): Net
    requires moved <= |net.channel|
  {
    var next := net.(got := net.channel[..moved], channel := net.channel[moved..]);
    if moved == 0 then next else Pulled(next)
  }

  /** These calls of recv have moved so many bytes. */
  ghost predicate HasPulled(net: Net, pieces: seq<nat>, moved: nat) {
    moved <= |net.channel| && Pulls(net, pieces) == Filled(net, moved)
  }

  lemma NonePulled(net: Net)
    requires net.got == []
    ensures HasPulled(net, [], 0)
  {
    assert net.channel[0..] == net.channel;
  }

  /** The next k bytes behind the first `at`. */
  lemma Sliced(s: string, at: nat, k: nat)
    requires at + k <= |s|
    ensures s[..at] + s[at..][..k] == s[..at + k] && s[at..][k..] == s[at + k..]
  {}

  lemma MorePulled(net: Net, pieces: seq<nat>, moved: nat, k: nat) returns (more: seq<nat>)
    requires net.reading && net.got == [] && moved < net.want && moved + k <= net.want
    requires 0 < k && moved + k <= |net.channel| && HasPulled(net, pieces, moved)
    ensures more == pieces + [k] && HasPulled(net, more, moved + k)
  {
    more := pieces + [k];
    hide Step, Deserialize;
    OnePull(net, pieces, k);
    Sliced(net.channel, moved, k);
  }

  class Socket {
    /** Bytes on their way to the reading end. */
    var bytes: string

    /** socket_write; calls beyond the tape move all that is left.  Its calls of send
        are pushes of the run it belongs to. */
    method Write(data: array<char>, datalen: nat, tape: seq<Io>, ghost net: Net)
      returns (count: int, ghost moved: nat, ghost pieces: seq<nat>)
      requires datalen <= data.Length && net.outgoing == data[..datalen] && net.channel == bytes
      modifies this
      ensures moved <= datalen && bytes == old(bytes) + data[..moved]
      ensures count == moved || (count == -1 && Broken in tape)
      ensures Smooth(tape) ==> count == datalen
      ensures Pushes(net, pieces) == net.(outgoing := data[moved..datalen], channel := bytes)
    {
      hide Step, Smooth;
      count, moved, pieces := 0, 0, [];
      var i := 0;
      var first := true;
      assert data[..0] == [];
      while first || count < datalen
        invariant 0 <= count == moved <= datalen && 0 <= i <= |tape|
        invariant bytes == old(bytes) + data[..moved]
        invariant Pushes(net, pieces) == net.(outgoing := data[moved..datalen], channel := bytes)
        decreases |tape| - i, datalen - count, first
      {
        first := false;
        var io := if i < |tape| then tape[i] else Moves(datalen - count);
        SmoothAt(tape, i);
        i := if i < |tape| then i + 1 else i;
        match io {
          case Interrupted =>
          case Broken => return -1, moved, pieces;
          case Gone => return;
          case Moves(n) =>
            var k := Min(n, datalen - count);
            if k == 0 {
              return;
            }
            OnePush(net, pieces, k);
            ghost var left := data[moved..datalen];
            assert left[..k] == data[count..count + k] && left[k..] == data[count + k..datalen];
            assert data[..count + k] == data[..count] + data[count..count + k];
            Assoc(old(bytes), data[..count], data[count..count + k]);
            bytes := bytes + data[count..count + k];
            count := count + k;
            moved, pieces := count, pieces + [k];
        }
      }
    }

    static lemma SmoothAt(tape: seq<Io>, i: nat)
      ensures i < |tape| ==> tape[i] in tape
      ensures Smooth(tape) && i < |tape| ==> tape[i].Interrupted? || (tape[i].Moves? && tape[i].n > 0)
    {}

    /** socket_read; an empty stream means that the peer is gone.  Its calls of recv
        are pulls of the run it belongs to. */
    method Read(data: array<char>, datalen: nat, tape: seq<Io>, ghost net: Net)
      returns (count: int, ghost moved: nat, ghost pieces: seq<nat>)
      requires 0 < datalen <= data.Length
      requires net.reading && net.want == datalen && net.got == [] && net.channel == bytes
      modifies this, data
      ensures moved <= datalen && Holds(net, data, moved)
      ensures count == moved || (count == -1 && Broken in tape)
      ensures Smooth(tape) ==> count == Min(datalen, |net.channel|)
      ensures HasPulled(net, pieces, moved)
    {
      hide Smooth, Holds, HasPulled;
      NonePulled(net);
      NothingYet(net, data);
      count, moved, pieces := 0, 0, [];
      var i := 0;
      var first := true;
      while first || count < datalen
        invariant 0 <= count == moved <= datalen && moved <= |net.channel| && 0 <= i <= |tape|
        invariant Holds(net, data, moved) && |bytes| == |net.channel| - moved
        invariant HasPulled(net, pieces, moved)
        decreases |tape| - i, datalen - count, first
      {
        first := false;
        var io := if i < |tape| then tape[i] else Moves(datalen - count);
        SmoothAt(tape, i);
        i := if i < |tape| then i + 1 else i;
        match io {
          case Interrupted =>
          case Broken => return -1, moved, pieces;
          case Gone => return;
          case Moves(n) =>
            var k := Min(n, Min(datalen - count, |bytes|));
            if k == 0 {
              return;
            }
            pieces := MorePulled(net, pieces, moved, k);
            Take(data, count, k, net);
            count := count + k;
            moved := count;
        }
      }
    }

    /** The first `moved` bytes of the stream are in the buffer, the others still to come. */
    ghost predicate Holds(net: Net, data: array<char>, moved: nat)
      reads this, data
    {
      && moved <= |net.channel| && moved <= data.Length
      && data[..moved] == net.channel[..moved] && bytes == net.channel[moved..]
    }

    lemma NothingYet(net: Net, data: array<char>)
      requires net.channel == bytes
      ensures Holds(net, data, 0)
    {
      assert net.channel[0..] == bytes;
    }

    /** One call of recv that gives k bytes. */
    method Take(data: array<char>, at: nat, k: nat, ghost net: Net)
      requires Holds(net, data, at) && at + k <= data.Length && k <= |bytes|
      modifies this, data
      ensures Holds(net, data, at + k) && |bytes| == old(|bytes|) - k
    {
      Fill(data, at, bytes[..k]);
      bytes := bytes[k..];
      Sliced(net.channel, at, k);
    }

    /** The bytes recv puts into the caller's buffer. */
    static method Fill(data: array<char>, at: nat, piece: string)
      requires at + |piece| <= data.Length
      modifies data
      ensures data[..at + |piece|] == old(data[..at]) + piece
    {
      var k := 0;
      while k < |piece|
        invariant 0 <= k <= |piece|
        invariant data[..at] == old(data[..at]) && data[at..at + k] == piece[..k]
      {
        data[at + k] := piece[k];
        k := k + 1;
      }
      assert data[..at + |piece|] == data[..at] + data[at..at + |piece|];
    }

    /** mesg_send: a step of the run in which sending begins, and its pushes. */
    method SendMesg(mesg: Buffer, m: Mesg, tape: seq<Io>, ghost net: Net)
      returns (r: int, ghost after: Net, ghost pieces: seq<nat>)
      requires mesg.Valid() && net.outgoing == [] && net.channel == bytes
      requires PayloadOf(m.kind, m.status) != Refused ==> DataFits(m.data, PayloadOf(m.kind, m.status))
      modifies this, mesg, mesg.buf
      ensures mesg.Valid() && (mesg.buf == old(mesg.buf) || fresh(mesg.buf)) && after.channel == bytes
      ensures !MesgPrintable(m) ==> r == -1 && after == net
      ensures MesgPrintable(m) ==> after == Pushes(Step(net, Send(m)), pieces)
      ensures MesgPrintable(m) ==> exists k :: 0 <= k <= |Serialized(m)| && bytes == old(bytes) + Serialized(m)[..k]
      ensures r == 1 ==> bytes == old(bytes) + Serialized(m)
      ensures MesgPrintable(m) && Smooth(tape) ==> r == 1
    {
      hide MesgPrintable, PayloadOf, DataFits, Serialized, Smooth;
      after, pieces := net, [];
      var msglen, _ := mesg.Serialize(m);
      if msglen < 0 {
        return -1, after, pieces;
      }
      ghost var begun := net.(sent := net.sent + [m], outgoing := Serialized(m));
      assert Step(net, Send(m)) == begun;
      var count;
      ghost var moved;
      count, moved, pieces := Write(mesg.buf, msglen, tape, begun);
      after := Pushes(begun, pieces);
      assert mesg.buf[..moved] == Serialized(m)[..moved];
      r := if count < msglen then -1 else 1;
    }

    /** mesg_recv; the header is looked at in one piece, a step of the run, and the
        rest are its pulls. */
    method ReceiveMesg(mesg: Buffer, tape: seq<Io>, ghost net: Net)
      returns (r: int, m: Option<Mesg>, ghost after: Net, ghost pieces: seq<nat>)
      requires mesg.Valid() && !net.reading && net.got == [] && net.channel == bytes
      modifies this, mesg, mesg.buf
      ensures mesg.Valid() && after.channel == bytes
      ensures old(bytes) == [] ==> r == 0
      ensures r == 1 ==> m.Some? && after.delivered == net.delivered + [m]
      ensures |old(bytes)| >= HDRLEN ==>
                match ReadHeader(old(bytes)[..HDRLEN])
                case None => r == -1 && after == Step(net, Peek)
                case Some(len) =>
                  && (len <= 0 ==> r == 0 && bytes == old(bytes))
                  && (len > 0 ==> after == Pulls(Step(net, Peek), pieces))
                  && (len > 0 && Smooth(tape) ==>
                        if len <= |old(bytes)| then
                          && m == Deserialize(old(bytes)[..len]) && bytes == old(bytes)[len..]
                          && r == if m.Some? then 1 else -1
                        else r == -1 && bytes == [])
    {
      hide ReadHeader, Deserialize, Smooth;
      m, after, pieces := None, net, [];
      if bytes == [] {
        return 0, m, after, pieces;
      }
      var hdr := bytes[..Min(HDRLEN, |bytes|)];
      var header := ReadHeader(hdr);
      if |bytes| >= HDRLEN && (header.None? || header.value > 0) {
        after := Step(net, Peek);
      }
      if header.None? {
        return -1, m, after, pieces;
      }
      var msglen := header.value;
      if msglen <= 0 {
        return 0, m, after, pieces;
      }
      if mesg.buflen <= msglen {
        mesg.buf := new char[msglen + 1];
        mesg.buflen := msglen;
      }
      ghost var reading := net.(reading := true, want := msglen, got := []);
      ghost var was := bytes;
      var count;
      ghost var moved;
      count, moved, pieces := Read(mesg.buf, msglen, tape, reading);
      after := Pulls(reading, pieces);
      if count == 0 {
        return 0, m, after, pieces;
      }
      if count < msglen {
        return -1, m, after, pieces;
      }
      assert mesg.buf[..msglen] == was[..msglen];
      m := Parse(mesg.buf, msglen);
      r := if m.Some? then 1 else -1;
    }

    static method Parse(buf: array<char>, len: nat) returns (m: Option<Mesg>)
      requires len <= buf.Length
      modifies buf
      ensures m == Deserialize(old(buf[..len]))
    {
      var got, _ := DeserializeInPlace(buf, len);
      m := got;
    }

    /** A message sent at one end of an idle socket and received at the other. */
    method Exchange(out: Buffer, into: Buffer, m: Mesg, sending: seq<Io>, receiving: seq<Io>)
      returns (got: Option<Mesg>)
      requires out.Valid() && into.Valid() && out != into && out.buf != into.buf && bytes == []
      requires MesgSendable(m) && |Serialized(m)| <= 9999 && Smooth(sending) && Smooth(receiving)
      modifies this, out, out.buf, into, into.buf
      ensures bytes == [] && got == if DataNamed(m.data) then Some(ArrivedMesg(m)) else None
    {
      SendableIsPrintable(m);
      assert PayloadOf(m.kind, m.status) != Refused ==> DataFits(m.data, PayloadOf(m.kind, m.status));
      hide MesgPrintable, MesgSendable, PayloadOf, DataFits, DataNamed, ArrivedMesg, SameMesg, ReadHeader, PrintHeader,
           PrintBody, Deserialize, Step, Pushes, Pulls, Smooth;
      MesgRoundTrip(m);
      FramedText(|Serialized(m)|, PrintBody(m), []);
      ghost var idle := Nothing();
      var sent, _, _ := SendMesg(out, m, sending, idle);
      assert bytes == Serialized(m) + [] == Serialized(m);
      var r, read, _, _ := ReceiveMesg(into, receiving, idle.(channel := bytes));
      got := read;
      assert Serialized(m)[..|Serialized(m)|] == Serialized(m) && Serialized(m)[|Serialized(m)|..] == [];
    }
  }
}
