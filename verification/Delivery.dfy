/**
 * From the hub to its clients: a subscriber's pump writes its frames to the event
 * stream, and the Go client's reader takes the stream apart again.
 */
module Delivery {
  import opened Prelude
  import opened HubProtocol
  import opened EventStream
  import Hub

  /** How messages are marshalled and fragments rendered to text. */
  datatype Codec = Codec(encode: Message -> string, render: Fragment -> string)

  /** What the pump writes for one frame. */
  function PacketOf(codec: Codec, frame: Frame): Packet
  {
    match frame
    case Json(m) => Packet(if m.Event? then "event" else "message", codec.encode(m))
    case Html(fragment) => Packet("message", codec.render(fragment))
  }

  function Packets(codec: Codec, frames: seq<Frame>): seq<Packet>
  {
    seq(|frames|, i requires 0 <= i < |frames| => PacketOf(codec, frames[i]))
  }

  /** The texts a client should deliver for these frames. */
  function Texts(codec: Codec, frames: seq<Frame>): seq<string>
  {
    seq(|frames|, i requires 0 <= i < |frames| =>
      (if frames[i].Json? then codec.encode(frames[i].message) else codec.render(frames[i].fragment)) + [LF])
  }

  /** The texts a client should deliver for these messages. */
  function MessageTexts(codec: Codec, messages: seq<Message>): seq<string>
  {
    seq(|messages|, i requires 0 <= i < |messages| => codec.encode(messages[i]) + [LF])
  }

  /** The events a browser should see of these messages. */
  function MessageEvents(codec: Codec, messages: seq<Message>): seq<Packet>
  {
    seq(|messages|, i requires 0 <= i < |messages| =>
      Packet(if messages[i].Event? then "event" else "message", codec.encode(messages[i])))
  }

  /** The events a browser should see of these log entries. */
  function FragmentEvents(codec: Codec, log: seq<Entry>): seq<Packet>
  {
    seq(|log|, i requires 0 <= i < |log| => Packet("message", codec.render(log[i].fragment)))
  }

  /** Marshalled messages are single lines that do not end in CR. */
  ghost predicate SingleLines(codec: Codec)
  {
    forall m :: LF !in codec.encode(m)
             && (codec.encode(m) == "" || codec.encode(m)[|codec.encode(m)| - 1] != CR)
  }

  // ---------------------------------------------------------------------------
  // The pump
  // ---------------------------------------------------------------------------

  lemma OneMorePacket(codec: Codec, frames: seq<Frame>, frame: Frame)
    ensures var p := PacketOf(codec, frame);
            WriteAll(Packets(codec, frames + [frame]))
              == WriteAll(Packets(codec, frames)) + EventStream.Frame(p.kind, p.payload)
  {
    var p := PacketOf(codec, frame);
    assert Packets(codec, frames + [frame]) == Packets(codec, frames) + [p];
    hide Packets, PacketOf;
    WriteAllAppend(Packets(codec, frames), [p]);
    WriteAllOne(p);
  }

  lemma WriteAllOne(p: Packet)
    ensures WriteAll([p]) == EventStream.Frame(p.kind, p.payload)
  {
    hide EventStream.Frame;
    assert [p][1..] == [];
    assert EventStream.Frame(p.kind, p.payload) + "" == EventStream.Frame(p.kind, p.payload);
  }

  /** Write the frame in hand in the subscriber's format. */
  method WriteFrame(s: Hub.Subscriber, body: ResponseBody, codec: Codec)
    requires s.hand.Some? && SingleLines(codec) && body.bytes == WriteAll(Packets(codec, s.written))
    modifies s, body
    ensures s.View() == Written(old(s.View())) && body.bytes == WriteAll(Packets(codec, s.written))
  {
    hide EventStream.Frame, Packets, WriteAll;
    OneMorePacket(codec, s.written, s.hand.value);
    match s.hand.value {
      case Html(fragment) => body.WriteHtml(codec.render(fragment));
      case Json(m) => body.WriteJson(m.Event?, codec.encode(m));
    }
    s.Write();
  }

  /** Take the frames one by one, for at most so many turns. */
  method WritePump(s: Hub.Subscriber, body: ResponseBody, codec: Codec, turns: nat)
    requires s.hand.None? && SingleLines(codec) && body.bytes == WriteAll(Packets(codec, s.written))
    modifies s, body
    ensures body.bytes == WriteAll(Packets(codec, s.written))
    ensures var n := if turns < |old(s.send)| then turns else |old(s.send)|;
            s.View() == old(s.View()).(queue := old(s.send)[n..], taken := old(s.taken) + old(s.send)[..n],
                                       written := old(s.written) + Writable(old(s.send)[..n]))
  {
    hide WriteAll, Packets, Writable;
    ghost var all := s.send;
    assert Writable(all[..0]) == [] by { NothingWritable(); }
    assert s.taken + all[..0] == s.taken && s.written + [] == s.written;
    var turn := 0;
    while turn < turns && |s.send| > 0
      invariant turn <= turns && turn <= |all|
      invariant s.View() == old(s.View()).(queue := all[turn..], taken := old(s.taken) + all[..turn],
                                           written := old(s.written) + Writable(all[..turn]))
      invariant body.bytes == WriteAll(Packets(codec, s.written))
    {
      ghost var frame := all[turn];
      Turn(old(s.taken), old(s.written), all, turn);
      s.Receive();
      if s.hand.Some? {
        WriteFrame(s, body, codec);
      }
      turn := turn + 1;
    }
  }

  lemma NothingWritable()
    ensures Writable([]) == []
  {
  }

  /** The logs after one more frame. */
  lemma Turn(taken: seq<Frame>, written: seq<Frame>, all: seq<Frame>, i: nat)
    requires i < |all|
    ensures taken + all[..i] + [all[i]] == taken + all[..i + 1]
    ensures written + Writable(all[..i + 1]) ==
      if Writes(all[i]) then written + Writable(all[..i]) + [all[i]] else written + Writable(all[..i])
  {
    assert all[..i + 1] == all[..i] + [all[i]];
    WritableMore(all[..i], all[i]);
  }

  // ---------------------------------------------------------------------------
  // The client
  // ---------------------------------------------------------------------------

  predicate AllJson(frames: seq<Frame>)
  {
    forall f <- frames :: f.Json?
  }

  lemma GoodPacket(codec: Codec, frame: Frame)
    requires SingleLines(codec) && frame.Json?
    ensures var p := PacketOf(codec, frame); ValidKind(p.kind) && NoLineEndsInCR(p.payload)
  {
    SplitNoLF(PacketOf(codec, frame).payload);
  }

  /** Packets of single-line payloads meet what the reader's theorems ask. */
  lemma GoodPackets(codec: Codec, frames: seq<Frame>)
    requires SingleLines(codec) && AllJson(frames)
    ensures forall p <- Packets(codec, frames) :: ValidKind(p.kind) && NoLineEndsInCR(p.payload)
  {
    forall i | 0 <= i < |frames|
      ensures var p := PacketOf(codec, frames[i]); ValidKind(p.kind) && NoLineEndsInCR(p.payload)
    {
      assert frames[i] in frames;
      GoodPacket(codec, frames[i]);
    }
    hide PacketOf, ValidKind, NoLineEndsInCR;
  }

  lemma ReadsFrames(codec: Codec, frames: seq<Frame>)
    requires SingleLines(codec) && AllJson(frames)
    ensures Read(WriteAll(Packets(codec, frames))) == Texts(codec, frames)
  {
    var packets := Packets(codec, frames);
    GoodPackets(codec, frames);
    hide Read, WriteAll, ValidKind, NoLineEndsInCR, PacketOf;
    RoundTripTexts(packets);
  }

  lemma RoundTripTexts(packets: seq<Packet>)
    requires forall p <- packets :: ValidKind(p.kind) && NoLineEndsInCR(p.payload)
    ensures Read(WriteAll(packets)) == seq(|packets|, i requires 0 <= i < |packets| => packets[i].payload + [LF])
  {
    ReadWritten(packets);
    forall i | 0 <= i < |packets|
      ensures Received(packets[i].payload) == packets[i].payload + [LF]
    {
      assert packets[i] in packets;
      ReceivedExact(packets[i].payload);
    }
    hide Read, WriteAll, Received, ValidKind, NoLineEndsInCR;
  }

  lemma TextsPrefix(codec: Codec, frames: seq<Frame>, more: seq<Frame>)
    ensures Texts(codec, frames) <= Texts(codec, frames + more)
  {
  }

  /** What was received of the stream reads as a prefix of what is kept for the client. */
  lemma ReadsPrefix(codec: Codec, written: seq<Frame>, more: seq<Frame>, cut: nat)
    requires SingleLines(codec) && AllJson(written) && cut <= |WriteAll(Packets(codec, written))|
    ensures Read(WriteAll(Packets(codec, written))[..cut]) <= Texts(codec, written + more)
  {
    hide *;
    var bytes := WriteAll(Packets(codec, written));
    assert bytes == bytes[..cut] + bytes[cut..];
    ReadPrefix(bytes[..cut], bytes[cut..]);
    ReadsFrames(codec, written);
    TextsPrefix(codec, written, more);
  }

  lemma {:induction false} KeptJson(offers: seq<Offer>)
    requires forall o <- offers :: o.frame.Json?
    ensures AllJson(Kept(offers))
  {
    if offers != [] {
      KeptJson(offers[..|offers| - 1]);
    }
  }

  lemma {:induction false} WritableJson(frames: seq<Frame>)
    requires AllJson(frames)
    ensures AllJson(Writable(frames))
  {
    if frames != [] {
      WritableJson(frames[..|frames| - 1]);
    }
  }

  lemma PrefixJson(a: seq<Frame>, b: seq<Frame>)
    requires AllJson(a + b)
    ensures AllJson(a)
  {
    assert forall i | 0 <= i < |a| :: a[i] == (a + b)[i];
  }

  lemma OffersJson(s: State, id: string)
    requires Inv(s) && id in s.conns && !s.conns[id].sub.html
    ensures forall o <- s.conns[id].offers :: o.frame.Json?
  {
    assert ConnInv(s, id, s.conns[id]);
    hide Inv, Accounted, Placed;
  }

  /** A JSON subscriber is only ever sent messages. */
  lemma WrittenIsJson(steps: seq<Step>, id: string)
    requires id in Exec(steps).conns && !Exec(steps).conns[id].sub.html
    ensures AllJson(Begun(Exec(steps).conns[id]))
  {
    hide *;
    var c := Exec(steps).conns[id];
    ExecInv(steps);
    OffersJson(Exec(steps), id);
    KeptJson(c.offers);
    WritableJson(Kept(c.offers));
    SplitsExactly(steps, id);
    BegunIs(c);
    PrefixJson(Begun(c), Writable(c.queue));
  }

  /** The frames written, and the one in hand, which may be half written. */
  function Begun(c: Conn): seq<Frame>
  {
    c.written + InHand(c)
  }

  lemma BegunIs(c: Conn)
    ensures c.written + InHand(c) == Begun(c)
  {
  }

  /** The popped messages a connection's pump writes when none was dropped. */
  function Due(s: State, c: Conn): seq<Message>
    requires c.from <= Until(s, c) <= |s.log|
  {
    Decodable(Messages(s.log[c.from..Until(s, c)]))
  }

  lemma TextsOfJsons(codec: Codec, messages: seq<Message>)
    ensures Texts(codec, Jsons(messages)) == MessageTexts(codec, messages)
  {
  }

  /** Nothing is queued for the client, and all bytes of its stream have arrived. */
  predicate CaughtUp(codec: Codec, c: Conn, cut: nat)
  {
    c.queue == [] && cut == |WriteAll(Packets(codec, Begun(c)))|
  }

  lemma ReadsAll(codec: Codec, c: Conn, cut: nat)
    requires SingleLines(codec) && AllJson(Begun(c)) && CaughtUp(codec, c, cut)
    ensures Writable(c.queue) == []
    ensures Read(WriteAll(Packets(codec, Begun(c)))[..cut]) == Texts(codec, Begun(c))
  {
    NothingWritable();
    hide Read, WriteAll, Packets, SingleLines, AllJson, Texts;
    ReadsFrames(codec, Begun(c));
    var bytes := WriteAll(Packets(codec, Begun(c)));
    assert bytes[..cut] == bytes;
  }

  /**
   * End to end: whatever bytes a JSON client has received, a part of the frame in hand
   * included, it has delivered a prefix of the messages kept for it, unaltered and in pop
   * order; and when its queue never filled, a prefix of all decodable messages popped while
   * it was connected, all of them once it has caught up.
   */
  lemma ClientReads(steps: seq<Step>, id: string, codec: Codec, cut: nat)
    requires SingleLines(codec)
    requires id in Exec(steps).conns && !Exec(steps).conns[id].sub.html
    requires cut <= |WriteAll(Packets(codec, Begun(Exec(steps).conns[id])))|
    ensures var s := Exec(steps); var c := s.conns[id];
            var received := WriteAll(Packets(codec, Begun(c)))[..cut];
            && c.from <= Until(s, c) <= |s.log|
            && Read(received) <= Texts(codec, Writable(Kept(c.offers)))
            && (NeverFull(steps, id) ==>
                  && Read(received) <= MessageTexts(codec, Due(s, c))
                  && (CaughtUp(codec, c, cut) ==> Read(received) == MessageTexts(codec, Due(s, c))))
  {
    hide *;
    var c := Exec(steps).conns[id];
    WrittenIsJson(steps, id);
    SplitsExactly(steps, id);
    BegunIs(c);
    if NeverFull(steps, id) {
      NeverFullLosesNothing(steps, id);
      DueIs(Exec(steps), c);
      TextsOfJsons(codec, Due(Exec(steps), c));
      if CaughtUp(codec, c, cut) {
        ReadsAll(codec, c, cut);
        assert Begun(c) + [] == Begun(c);
      }
    }
    ReadsPrefix(codec, Begun(c), Writable(c.queue), cut);
  }

  lemma DueIs(s: State, c: Conn)
    requires c.from <= Until(s, c) <= |s.log|
    ensures Due(s, c) == Decodable(Messages(s.log[c.from..Until(s, c)]))
  {
  }

  // ---------------------------------------------------------------------------
  // A browser
  // ---------------------------------------------------------------------------

  lemma EventsOf(codec: Codec, messages: seq<Message>, log: seq<Entry>)
    ensures Packets(codec, Jsons(messages)) == MessageEvents(codec, messages)
    ensures Packets(codec, Htmls(log)) == FragmentEvents(codec, log)
  {
  }

  lemma PacketsAppend(codec: Codec, a: seq<Frame>, b: seq<Frame>)
    ensures Packets(codec, a + b) == Packets(codec, a) + Packets(codec, b)
  {
    hide PacketOf;
  }

  /** No payload has a CR. */
  predicate NoCR(packets: seq<Packet>)
  {
    forall p <- packets :: CR !in p.payload
  }

  lemma PacketKinds(codec: Codec, frames: seq<Frame>)
    ensures forall p <- Packets(codec, frames) :: ValidKind(p.kind)
  {
  }

  lemma StandardReadsPrefix(codec: Codec, begun: seq<Frame>, more: seq<Frame>, cut: nat)
    requires NoCR(Packets(codec, begun + more)) && cut <= |WriteAll(Packets(codec, begun))|
    ensures StandardRead(WriteAll(Packets(codec, begun))[..cut]) <= Packets(codec, begun + more)
    ensures cut == |WriteAll(Packets(codec, begun))| ==>
      StandardRead(WriteAll(Packets(codec, begun))[..cut]) == Packets(codec, begun)
  {
    PacketsAppend(codec, begun, more);
    PacketKinds(codec, begun);
    hide Packets, WriteAll, StandardRead, ValidKind;
    var bytes := WriteAll(Packets(codec, begun));
    StandardReadsWritten(Packets(codec, begun));
    assert bytes == bytes[..cut] + bytes[cut..];
    StandardReadPrefix(bytes[..cut], bytes[cut..]);
    assert cut == |bytes| ==> bytes[..cut] == bytes;
  }

  /**
   * What a conforming parser sees of a subscriber's stream when its queue never filled, for
   * payloads without CR: of a JSON stream the decodable messages popped while it was
   * connected, join and leave events under the kind `event` and all others as `message`; of
   * an HTML stream the fragments, as `message`. A prefix of them at any time, all of them
   * once it has caught up.
   */
  lemma BrowserReads(steps: seq<Step>, id: string, codec: Codec, cut: nat)
    requires id in Exec(steps).conns && NeverFull(steps, id)
    requires cut <= |WriteAll(Packets(codec, Begun(Exec(steps).conns[id])))|
    ensures var s := Exec(steps); var c := s.conns[id];
            && c.from <= Until(s, c) <= |s.log|
            && var received := WriteAll(Packets(codec, Begun(c)))[..cut];
               var due := if c.sub.html then FragmentEvents(codec, s.log[c.from..Until(s, c)])
                          else MessageEvents(codec, Due(s, c));
               NoCR(due) ==>
                 StandardRead(received) <= due && (CaughtUp(codec, c, cut) ==> StandardRead(received) == due)
  {
    hide *;
    var s, c := Exec(steps), Exec(steps).conns[id];
    NeverFullLosesNothing(steps, id);
    DueIs(s, c);
    BegunIs(c);
    EventsOf(codec, Due(s, c), s.log[c.from..Until(s, c)]);
    var all := Begun(c) + Writable(c.queue);
    if NoCR(Packets(codec, all)) {
      StandardReadsPrefix(codec, Begun(c), Writable(c.queue), cut);
      if CaughtUp(codec, c, cut) {
        CaughtUpIs(codec, c, cut);
        assert Begun(c) + [] == Begun(c);
      }
    }
  }

  lemma CaughtUpIs(codec: Codec, c: Conn, cut: nat)
    requires CaughtUp(codec, c, cut)
    ensures cut == |WriteAll(Packets(codec, Begun(c)))| && Writable(c.queue) == []
  {
    hide WriteAll, Packets;
  }
}
